/**
 No run of compiled code violates an assertion of the interpreter, whether it ends or not. The
 proof follows the code: a pattern's code is safe for n steps when every state it can leave in
 is safe for n steps, and calls and loop turns take steps.
 */
module Safety {
  import opened Common
  import opened Charsets
  import opened Analysis
  import opened Semantics
  import opened Soundness
  import opened Machine
  import opened CodeGen
  import opened Placement
  import opened Correctness

  ghost predicate Safe(x: Program, st: State, n: nat) { Steps(x.code, x.s, st, n) != Stuck }

  lemma {:induction false} Less(x: Program, st: State, n: nat, m: nat)
    requires Safe(x, st, n) && m <= n
    ensures Safe(x, st, m)
    decreases m
  {
    if m > 0 {
      Less(x, Step(x.code, x.s, st), n - 1, m - 1);
    } else if st == Stuck {
      StepsStay(x.code, x.s, st, n);
    }
  }

  /** One step and then n - 1. */
  lemma Later(x: Program, st: State, n: nat)
    requires st.Run? && (n > 0 ==> Safe(x, Step(x.code, x.s, st), n - 1))
    ensures Safe(x, st, n)
  {
  }

  lemma Now(x: Program, st: State, n: nat)
    requires st.Run? && Safe(x, Step(x.code, x.s, st), n)
    ensures Safe(x, st, n)
  {
    if n > 0 {
      Less(x, Step(x.code, x.s, st), n, n - 1);
    }
  }

  // ---- how the code of a pattern may be left

  /** Code of a pattern of this length, entered at i, may be left at j. */
  ghost predicate Lands(x: Program, len: int, i: nat, j: nat) { j <= |x.s| && (len >= 0 ==> j == i + len) }

  /** In an optional part the alternative on top of the stack may have been moved. */
  ghost predicate EndSafe(x: Program, pc: int, opt: bool, stack: seq<Entry>, j: nat, caps: seq<Capture>, n: nat)
    requires opt ==> |stack| > 0
  {
    if opt then
      forall pos: nat, level: nat :: Safe(x, Run(pc, j, [Choice(stack[0].pc, pos, level)] + stack[1..], caps), n)
    else Safe(x, Run(pc, j, stack, caps), n)
  }

  /** Going on at the top entry of the stack. */
  ghost predicate TopSafe(x: Program, stack: seq<Entry>, j: nat, caps: seq<Capture>, n: nat)
    requires |stack| > 0
  {
    Safe(x, Run(stack[0].pc, j, stack[1..], caps), n)
  }

  /** Every way to leave code that ends at pc is safe for n steps. */
  ghost predicate Exits(x: Program, pc: int, opt: bool, len: int, i: nat, stack: seq<Entry>, caps: seq<Capture>, n: nat)
    requires opt ==> |stack| > 0
  {
    Safe(x, FailTo(stack, caps), n) &&
    (forall j: nat, more :: caps <= more && Lands(x, len, i, j) ==> EndSafe(x, pc, opt, stack, j, more, n)) &&
    (opt ==> forall j: nat, more ::
      caps <= more && j <= |x.s| && (len == 0 ==> j == i) ==> TopSafe(x, stack, j, more, n)) &&
    (ReturnFollows(x.code, pc) ==> !opt && |stack| > 0 && stack[0].Return?) &&
    (ReturnFollows(x.code, pc) ==> forall j: nat, more ::
      caps <= more && Lands(x, len, i, j) ==> TopSafe(x, stack, j, more, n))
  }

  ghost predicate Ready(x: Program, t: Tree, opt: bool, i: nat, stack: seq<Entry>, caps: seq<Capture>) {
    RulesPlaced(x) && WellFormed(x.g, x.d, t) && i <= |x.s| && LevelsBelow(stack, |caps|) &&
    (opt ==> |stack| > 0 && stack[0].Choice?)
  }

  lemma AtEnd(x: Program, pc: int, opt: bool, len: int, i: nat, stack: seq<Entry>, caps: seq<Capture>, n: nat,
              j: nat, more: seq<Capture>)
    requires (opt ==> |stack| > 0 && stack[0].Choice?) && Exits(x, pc, opt, len, i, stack, caps, n)
    requires caps <= more && Lands(x, len, i, j)
    ensures Safe(x, Run(pc, j, stack, more), n)
  {
    hide Safe;
    assert EndSafe(x, pc, opt, stack, j, more, n);
    if opt {
      assert [Choice(stack[0].pc, stack[0].pos, stack[0].level)] + stack[1..] == stack;
    }
  }

  /** Captures made since do not matter when the code fails. */
  lemma {:induction false} FailSame(stack: seq<Entry>, caps: seq<Capture>, more: seq<Capture>)
    requires LevelsBelow(stack, |caps|) && caps <= more
    ensures FailTo(stack, more) == FailTo(stack, caps)
  {
    FailToTop(stack, caps, more[|caps|..]);
    assert more == caps + more[|caps|..];
  }

  /** Code that does not end before a return: its exits are failing and falling through. */
  lemma Plain(x: Program, pc: int, len: int, i: nat, stack: seq<Entry>, caps: seq<Capture>, n: nat)
    requires 0 <= pc < |x.code| && !x.code[pc].IJmp? && !x.code[pc].IRet?
    requires Safe(x, FailTo(stack, caps), n)
    requires forall j: nat, more :: caps <= more && Lands(x, len, i, j) ==> EndSafe(x, pc, false, stack, j, more, n)
    ensures Exits(x, pc, false, len, i, stack, caps, n)
  {
  }

  lemma JumpFollows(x: Program, pc: int, off: int)
    requires At(x, pc, IJmp(off)) && ReturnFollows(x.code, pc)
    ensures ReturnFollows(x.code, pc + off)
  {
    var k: nat :| JumpsToReturn(x.code, pc, k);
    assert JumpsToReturn(x.code, pc + off, k - 1);
  }

  // ---- code that only jumps matches the empty string

  lemma GuardFalls(x: Program, pc: int, f: First, off: int)
    requires Placed(x.code, pc, Guard(f, off), x.env) && !f.empty && ReturnFollows(x.code, pc)
    ensures ReturnFollows(x.code, pc + off) && forall c: Byte :: !f.set_[c]
  {
    TestFalls(x, pc, f.set_, off);
  }

  lemma TestFalls(x: Program, pc: int, cs: Charset, off: int)
    requires Placed(x.code, pc, TestCode(cs, off), x.env) && ReturnFollows(x.code, pc)
    ensures ReturnFollows(x.code, pc + off) && forall c: Byte :: !cs[c]
  {
    assert Realises(x.code, pc + 0, TestCode(cs, off)[0], x.env);
    JumpFollows(x, pc, off);
    forall c: Byte ensures !cs[c] {
      KindMember(cs, c);
    }
  }

  lemma {:induction false} FallsChoice(x: Program, seen: set<nat>, pc: int, t: Tree, opt: bool, tt: Test, fl: Charset)
    requires t.TChoice? && RulesPlaced(x) && ReturnFollows(x.code, pc)
    requires Placed(x.code, pc, Gen(x.g, x.d, t, opt, tt, fl), x.env)
    ensures ReturnFollows(x.code, pc + |Gen(x.g, x.d, t, opt, tt, fl)|) && FixedLen(x.g, seen, t) <= 0
    decreases Unseen(x.g, seen), t, 0
  {
    hide RulesPlaced, Placed, GetFirst, Guard, TestCode, CheckAux, HasCaptures, TestOf, ByTest, GuardSize, TestSize,
      ReturnFollows, Used, Calls, Resolved, Gen, GenChoice, GenRep, GenNot, TestedChoice, StackedChoice, TestedLoop,
      StackedLoop, HeadFail;
    var p1, p2 := t.p1, t.p2;
    var f := GetFirst(x.g, x.d, p1, FullSet());
    ChoiceCode(x.g, x.d, p1, p2, opt, tt, fl);
    var c2 := Gen(x.g, x.d, p2, opt, NoTest, fl);
    if ByTest(x.g, x.d, p1, p2, fl) {
      var c1 := Gen(x.g, x.d, p1, false, TestOf(First(f.set_, false)), fl);
      LayoutChoiceTest(x, pc, f.set_, c1, c2, p2);
      var off := TestSize(f.set_) + |c1| + |JumpOver(c2, p2)|;
      TestFalls(x, pc, f.set_, off);
      Falls(x, seen, pc + off, p2, opt, NoTest, fl);
    } else if opt && p2.TTrue? {
      var c1 := Gen(x.g, x.d, p1, true, NoTest, FullSet());
      PlacedSplit(x.code, pc, [IPartialCommit(2), ISlot], c1, x.env);
      PlacedAt(x, pc, [IPartialCommit(2), ISlot]);
      Stays(x, pc);
    } else {
      var c1 := Gen(x.g, x.d, p1, p2.TTrue?, TestOf(f), FullSet());
      LayoutStackedChoice(x, pc, f, c1, c2);
      GuardPassed(x, pc, f, GuardSize(f) + |c1| + 4);
      Falls(x, seen, pc + GuardSize(f) + |c1| + 4, p2, opt, NoTest, fl);
    }
  }

  /** An instruction that is neither a jump nor a return ends the jumps. */
  lemma Stays(x: Program, pc: int)
    ensures ReturnFollows(x.code, pc) ==> 0 <= pc < |x.code| && (x.code[pc].IRet? || x.code[pc].IJmp?)
  {
  }

  /** Jumps to a return can only pass a guard by the guard's own jump. */
  lemma GuardPassed(x: Program, pc: int, f: First, off: int)
    requires Placed(x.code, pc, Guard(f, off), x.env) && ReturnFollows(x.code, pc)
    requires 0 <= pc + GuardSize(f) < |x.code| && !x.code[pc + GuardSize(f)].IJmp? && !x.code[pc + GuardSize(f)].IRet?
    ensures ReturnFollows(x.code, pc + off)
  {
    hide ReturnFollows, Placed;
    if f.empty {
      Stays(x, pc);
    } else {
      GuardFalls(x, pc, f, off);
    }
  }

  lemma FallsRep(x: Program, pc: int, t: Tree, opt: bool, tt: Test, fl: Charset)
    requires t.TRep? && RulesPlaced(x) && ReturnFollows(x.code, pc)
    requires Placed(x.code, pc, Gen(x.g, x.d, t, opt, tt, fl), x.env)
    ensures ReturnFollows(x.code, pc + |Gen(x.g, x.d, t, opt, tt, fl)|)
  {
    hide RulesPlaced, Placed, GetFirst, Guard, TestCode, CheckAux, HasCaptures, TestOf, RepByTest, GuardSize, TestSize,
      ReturnFollows, Used, Calls, Resolved, Gen, GenChoice, GenRep, GenNot, TestedChoice, StackedChoice, TestedLoop,
      StackedLoop, HeadFail;
    var p := t.p;
    var f := GetFirst(x.g, x.d, p, FullSet());
    RepCode(x.g, x.d, p, opt, tt, fl);
    Stays(x, pc);
    if IsCharset(p) {
      if !p.TFalse? {
        PlacedAt(x, pc, RepCharset(p));
      }
    } else if RepByTest(x.g, x.d, p, fl) {
      var c := Gen(x.g, x.d, p, false, TestOf(First(f.set_, false)), FullSet());
      LayoutTestedLoop(x, pc, f.set_, c);
      TestFalls(x, pc, f.set_, TestSize(f.set_) + |c| + 2);
    } else {
      var c := Gen(x.g, x.d, p, false, NoTest, FullSet());
      LayoutStackedLoop(x, pc, f, c, opt);
      GuardPassed(x, pc, f, GuardSize(f) + |c| + 4);
    }
  }

  lemma FallsNot(x: Program, pc: int, t: Tree, opt: bool, tt: Test, fl: Charset)
    requires t.TNot? && RulesPlaced(x) && ReturnFollows(x.code, pc)
    requires Placed(x.code, pc, Gen(x.g, x.d, t, opt, tt, fl), x.env)
    ensures ReturnFollows(x.code, pc + |Gen(x.g, x.d, t, opt, tt, fl)|)
  {
    hide RulesPlaced, Placed, GetFirst, Guard, TestCode, CheckAux, HasCaptures, TestOf, GuardSize, TestSize,
      ReturnFollows, Used, Calls, Resolved;
    var p := t.p;
    var f := GetFirst(x.g, x.d, p, FullSet());
    assert Gen(x.g, x.d, t, opt, tt, fl) == GenNot(x.g, x.d, p);
    if HeadFail(x.g, x.d, p) {
      var guard := Guard(f, GuardSize(f) + 1);
      GuardLength(f, GuardSize(f) + 1);
      PlacedSplit(x.code, pc, guard, [IFail], x.env);
      PlacedAt(x, pc + |guard|, [IFail]);
      GuardPassed(x, pc, f, GuardSize(f) + 1);
    } else {
      var c := Gen(x.g, x.d, p, false, NoTest, FullSet());
      LayoutStackedNot(x, pc, f, c);
      GuardPassed(x, pc, f, GuardSize(f) + |c| + 3);
    }
  }

  lemma FallsSingle(x: Program, pc: int, t: Tree, opt: bool, tt: Test, fl: Charset)
    requires IsCharset(t) && Placed(x.code, pc, Gen(x.g, x.d, t, opt, tt, fl), x.env)
    ensures !ReturnFollows(x.code, pc)
  {
    PlacedAt(x, pc, Gen(x.g, x.d, t, opt, tt, fl));
  }

  lemma {:induction false} FallsCall(x: Program, seen: set<nat>, pc: int, t: Tree)
    requires t.TCall? && RulesPlaced(x) && ReturnFollows(x.code, pc)
    requires Placed(x.code, pc, [IOpenCall(t.rule), ISlot], x.env)
    ensures ReturnFollows(x.code, pc + 2) && FixedLen(x.g, seen, t) <= 0
    decreases Unseen(x.g, seen), t, 0
  {
    var n := t.rule;
    assert Realises(x.code, pc + 0, [IOpenCall(n), ISlot][0], x.env);
    Stays(x, pc);
    if n !in seen {
      JumpFollows(x, pc, x.env[n] - pc);
      PlacedSplit(x.code, x.env[n], Gen(x.g, x.d, x.g[n], false, NoTest, FullSet()), [IRet], x.env);
      assert n in Unseen(x.g, seen) && Unseen(x.g, seen + {n}) == Unseen(x.g, seen) - {n};
      Falls(x, seen + {n}, x.env[n], x.g[n], false, NoTest, FullSet());
    }
  }

  lemma {:induction false} FallsAnd(x: Program, seen: set<nat>, pc: int, p: Tree, opt: bool, tt: Test, fl: Charset)
    requires RulesPlaced(x) && ReturnFollows(x.code, pc) && Placed(x.code, pc, Gen(x.g, x.d, TAnd(p), opt, tt, fl), x.env)
    ensures ReturnFollows(x.code, pc + |Gen(x.g, x.d, TAnd(p), opt, tt, fl)|)
    decreases Unseen(x.g, seen), TAnd(p), 0
  {
    hide RulesPlaced, Placed, GetFirst, CheckAux, HasCaptures, TestCode, ReturnFollows, FixedLen, HeadFail, GenNot,
      GenRep, GenChoice, Used, Calls, Resolved;
    var c := Gen(x.g, x.d, p, false, tt, FullSet());
    Stays(x, pc);
    if AndByLength(x.g, p) {
      var back := StepBack(FixedLen(x.g, {}, p));
      PlacedSplit(x.code, pc, c, back, x.env);
      Falls(x, seen, pc, p, false, tt, FullSet());
      Stays(x, pc + |c|);
      if |back| > 0 {
        PlacedAt(x, pc + |c|, back);
      }
    } else {
      PlacedAt(x, pc, StackedAnd(c));
    }
  }

  lemma {:induction false} FallsBehind(x: Program, seen: set<nat>, pc: int, n: nat, p: Tree, opt: bool, tt: Test, fl: Charset)
    requires RulesPlaced(x) && ReturnFollows(x.code, pc)
    requires Placed(x.code, pc, Gen(x.g, x.d, TBehind(n, p), opt, tt, fl), x.env)
    ensures ReturnFollows(x.code, pc + |Gen(x.g, x.d, TBehind(n, p), opt, tt, fl)|)
    decreases Unseen(x.g, seen), TBehind(n, p), 0
  {
    hide RulesPlaced, Placed, GetFirst, CheckAux, HasCaptures, TestCode, ReturnFollows, FixedLen, HeadFail, GenNot,
      GenRep, GenChoice, Used, Calls, Resolved;
    Stays(x, pc);
    PlacedSplit(x.code, pc, StepBack(n), Gen(x.g, x.d, p, false, NoTest, FullSet()), x.env);
    if n > 0 {
      PlacedAt(x, pc, StepBack(n));
    } else {
      Falls(x, seen, pc, p, false, NoTest, FullSet());
    }
  }

  lemma {:induction false} FallsCapture(x: Program, seen: set<nat>, pc: int, kind: nat, p: Tree, opt: bool, tt: Test, fl: Charset)
    requires RulesPlaced(x) && Placed(x.code, pc, Gen(x.g, x.d, TCapture(kind, p), opt, tt, fl), x.env)
    ensures !ReturnFollows(x.code, pc)
    decreases Unseen(x.g, seen), TCapture(kind, p), 0
  {
    hide RulesPlaced, Placed, GetFirst, CheckAux, HasCaptures, TestCode, ReturnFollows, FixedLen, HeadFail, GenNot,
      GenRep, GenChoice, Used, Calls, Resolved;
    var c := Gen(x.g, x.d, p, false, tt, fl);
    Stays(x, pc);
    if ShortBody(x.g, p) {
      var full := [IFullCapture(kind, FixedLen(x.g, {}, p))];
      PlacedSplit(x.code, pc, c, full, x.env);
      Stays(x, pc + |c|);
      PlacedAt(x, pc + |c|, full);
      if ReturnFollows(x.code, pc) {
        Falls(x, seen, pc, p, false, tt, fl);
      }
    } else {
      PlacedAt(x, pc, [IOpenCapture(kind)] + c + [ICloseCapture]);
    }
  }

  lemma FallsGrammar(x: Program, pc: int, t: Tree, opt: bool, tt: Test, fl: Charset)
    requires t.TGrammar? && Placed(x.code, pc, Gen(x.g, x.d, t, opt, tt, fl), x.env)
    ensures !ReturnFollows(x.code, pc)
  {
    hide GenRules, CorrectCalls, ReturnFollows, Placed, Used, Calls, Resolved;
    Stays(x, pc);
    PlacedAt(x, pc, Gen(x.g, x.d, t, opt, tt, fl));
  }

  /** Where only jumps lead from the start of a pattern to a return, they lead there from its end too. */
  lemma {:induction false} Falls(x: Program, seen: set<nat>, pc: int, t: Tree, opt: bool, tt: Test, fl: Charset)
    requires RulesPlaced(x) && ReturnFollows(x.code, pc)
    requires Placed(x.code, pc, Gen(x.g, x.d, t, opt, tt, fl), x.env)
    ensures ReturnFollows(x.code, pc + |Gen(x.g, x.d, t, opt, tt, fl)|) && FixedLen(x.g, seen, t) <= 0
    decreases Unseen(x.g, seen), t, 1
  {
    hide RulesPlaced, Placed, GetFirst, CheckAux, HasCaptures, TestCode, HeadFail, GenRep, GenNot, GenChoice,
      CorrectCalls, ReturnFollows, Used, Calls, Resolved;
    match t
    case TTrue =>
    case TSeq(p1, p2) =>
      var f1, t2 := SeqFollow(x.g, x.d, p1, p2, fl), SeqTest(x.g, p1, tt);
      var c1, c2 := Gen(x.g, x.d, p1, false, tt, f1), Gen(x.g, x.d, p2, opt, t2, fl);
      PlacedSplit(x.code, pc, c1, c2, x.env);
      Falls(x, seen, pc, p1, false, tt, f1);
      Falls(x, seen, pc + |c1|, p2, opt, t2, fl);
    case TChoice(_, _) => FallsChoice(x, seen, pc, t, opt, tt, fl);
    case TRep(_) => FallsRep(x, pc, t, opt, tt, fl);
    case TNot(_) => FallsNot(x, pc, t, opt, tt, fl);
    case TCall(_) => FallsCall(x, seen, pc, t);
    case TChar(_) => FallsSingle(x, pc, t, opt, tt, fl);
    case TSet(_) => FallsSingle(x, pc, t, opt, tt, fl);
    case TAny => FallsSingle(x, pc, t, opt, tt, fl);
    case TFalse => FallsSingle(x, pc, t, opt, tt, fl);
    case TAnd(p) => FallsAnd(x, seen, pc, p, opt, tt, fl);
    case TBehind(n, p) => FallsBehind(x, seen, pc, n, p, opt, tt, fl);
    case TCapture(kind, p) => FallsCapture(x, seen, pc, kind, p, opt, tt, fl);
    case TGrammar(_) => FallsGrammar(x, pc, t, opt, tt, fl);
  }

  // ---- one rule per instruction

  lemma DoJmp(x: Program, pc: int, off: int, i: nat, stack: seq<Entry>, caps: seq<Capture>, n: nat)
    requires i <= |x.s| && At(x, pc, IJmp(off)) && Safe(x, Run(pc + off, i, stack, caps), n)
    ensures Safe(x, Run(pc, i, stack, caps), n)
  {
    Now(x, Run(pc, i, stack, caps), n);
  }

  lemma DoTest(x: Program, pc: int, cs: Charset, off: int, i: nat, stack: seq<Entry>, caps: seq<Capture>, n: nat)
    requires i <= |x.s| && Placed(x.code, pc, TestCode(cs, off), x.env)
    requires n > 0 ==>
      Safe(x, Run(if i < |x.s| && cs[x.s[i]] then pc + TestSize(cs) else pc + off, i, stack, caps), n - 1)
    ensures Safe(x, Run(pc, i, stack, caps), n)
  {
    TestStep(x, pc, cs, off, i, stack, caps);
    Later(x, Run(pc, i, stack, caps), n);
  }

  lemma DoGuard(x: Program, pc: int, f: First, off: int, i: nat, stack: seq<Entry>, caps: seq<Capture>, n: nat)
    requires i <= |x.s| && Placed(x.code, pc, Guard(f, off), x.env)
    requires Safe(x, Run(pc + GuardSize(f), i, stack, caps), n)
    requires !f.empty ==> Safe(x, Run(pc + off, i, stack, caps), n)
    ensures Safe(x, Run(pc, i, stack, caps), n)
  {
    if !f.empty {
      TestStep(x, pc, f.set_, off, i, stack, caps);
      Now(x, Run(pc, i, stack, caps), n);
    }
  }

  lemma DoChoice(x: Program, pc: int, off: int, i: nat, stack: seq<Entry>, caps: seq<Capture>, n: nat)
    requires i <= |x.s| && At(x, pc, IChoice(off))
    requires Safe(x, Run(pc + 2, i, [Choice(pc + off, i, |caps|)] + stack, caps), n)
    ensures Safe(x, Run(pc, i, stack, caps), n)
  {
    Now(x, Run(pc, i, stack, caps), n);
  }

  lemma DoCommit(x: Program, pc: int, off: int, i: nat, top: Entry, stack: seq<Entry>, caps: seq<Capture>, n: nat)
    requires i <= |x.s| && At(x, pc, ICommit(off)) && top.Choice? && Safe(x, Run(pc + off, i, stack, caps), n)
    ensures Safe(x, Run(pc, i, [top] + stack, caps), n)
  {
    assert ([top] + stack)[1..] == stack;
    Now(x, Run(pc, i, [top] + stack, caps), n);
  }

  lemma DoPartialCommit(x: Program, pc: int, off: int, i: nat, top: Entry, stack: seq<Entry>, caps: seq<Capture>, n: nat)
    requires i <= |x.s| && At(x, pc, IPartialCommit(off)) && top.Choice?
    requires n > 0 ==> Safe(x, Run(pc + off, i, [Choice(top.pc, i, |caps|)] + stack, caps), n - 1)
    ensures Safe(x, Run(pc, i, [top] + stack, caps), n)
  {
    assert ([top] + stack)[1..] == stack;
    Later(x, Run(pc, i, [top] + stack, caps), n);
  }

  lemma DoBackCommit(x: Program, pc: int, off: int, i: nat, top: Entry, stack: seq<Entry>, caps: seq<Capture>, n: nat)
    requires i <= |x.s| && At(x, pc, IBackCommit(off)) && top.Choice? && top.level <= |caps|
    requires Safe(x, Run(pc + off, top.pos, stack, caps[..top.level]), n)
    ensures Safe(x, Run(pc, i, [top] + stack, caps), n)
  {
    assert ([top] + stack)[1..] == stack;
    Now(x, Run(pc, i, [top] + stack, caps), n);
  }

  lemma DoFailTwice(x: Program, pc: int, i: nat, top: Entry, stack: seq<Entry>, caps: seq<Capture>, n: nat)
    requires i <= |x.s| && At(x, pc, IFailTwice) && Safe(x, FailTo(stack, caps), n)
    ensures Safe(x, Run(pc, i, [top] + stack, caps), n)
  {
    assert ([top] + stack)[1..] == stack;
    Now(x, Run(pc, i, [top] + stack, caps), n);
  }

  lemma DoFail(x: Program, pc: int, i: nat, stack: seq<Entry>, caps: seq<Capture>, n: nat)
    requires i <= |x.s| && At(x, pc, IFail) && Safe(x, FailTo(stack, caps), n)
    ensures Safe(x, Run(pc, i, stack, caps), n)
  {
    Now(x, Run(pc, i, stack, caps), n);
  }

  lemma DoBehind(x: Program, pc: int, k: nat, i: nat, stack: seq<Entry>, caps: seq<Capture>, n: nat)
    requires i <= |x.s| && At(x, pc, IBehind(k))
    requires Safe(x, if k > i then FailTo(stack, caps) else Run(pc + 1, i - k, stack, caps), n)
    ensures Safe(x, Run(pc, i, stack, caps), n)
  {
    Now(x, Run(pc, i, stack, caps), n);
  }

  lemma DoCapture(x: Program, pc: int, c: Instr, i: nat, stack: seq<Entry>, caps: seq<Capture>, e: Capture, n: nat)
    requires i <= |x.s| && At(x, pc, c)
    requires match c
      case IFullCapture(kind, len) => len <= i && e == Full(kind, i - len, len)
      case IOpenCapture(kind) => e == Open(kind, i)
      case ICloseCapture => caps != [] && e == Close(i)
      case _ => false
    requires Safe(x, Run(pc + 1, i, stack, caps + [e]), n)
    ensures Safe(x, Run(pc, i, stack, caps), n)
  {
    Now(x, Run(pc, i, stack, caps), n);
  }

  lemma DoCall(x: Program, pc: int, off: int, i: nat, stack: seq<Entry>, caps: seq<Capture>, n: nat)
    requires i <= |x.s| && At(x, pc, ICall(off))
    requires n > 0 ==> Safe(x, Run(pc + off, i, [Return(pc + 2)] + stack, caps), n - 1)
    ensures Safe(x, Run(pc, i, stack, caps), n)
  {
    Later(x, Run(pc, i, stack, caps), n);
  }

  // ---- the cases

  /** A part of a pattern that ends where the pattern ends. */
  lemma Narrow(x: Program, pc: int, opt: bool, stack: seq<Entry>, len: int, i: nat, caps: seq<Capture>, n: nat,
               len2: int, i2: nat, more: seq<Capture>, m: nat)
    requires (opt ==> |stack| > 0) && Exits(x, pc, opt, len, i, stack, caps, n)
    requires caps <= more && LevelsBelow(stack, |caps|) && m <= n
    requires len >= 0 ==> len2 >= 0 && i2 + len2 == i + len
    requires len == 0 ==> i2 == i
    ensures Exits(x, pc, opt, len2, i2, stack, more, m)
  {
    hide Safe, ReturnFollows;
    FailSame(stack, caps, more);
    Less(x, FailTo(stack, caps), n, m);
    forall j: nat, last | more <= last && Lands(x, len2, i2, j) ensures EndSafe(x, pc, opt, stack, j, last, m) {
      assert EndSafe(x, pc, opt, stack, j, last, n);
      EndLess(x, pc, opt, stack, j, last, n, m);
    }
    forall j: nat, last | opt && more <= last && j <= |x.s| && (len2 == 0 ==> j == i2)
      ensures TopSafe(x, stack, j, last, m)
    {
      assert TopSafe(x, stack, j, last, n);
      Less(x, Run(stack[0].pc, j, stack[1..], last), n, m);
    }
    forall j: nat, last | ReturnFollows(x.code, pc) && more <= last && Lands(x, len2, i2, j)
      ensures TopSafe(x, stack, j, last, m)
    {
      assert TopSafe(x, stack, j, last, n);
      Less(x, Run(stack[0].pc, j, stack[1..], last), n, m);
    }
  }

  lemma EndLess(x: Program, pc: int, opt: bool, stack: seq<Entry>, j: nat, caps: seq<Capture>, n: nat, m: nat)
    requires (opt ==> |stack| > 0) && EndSafe(x, pc, opt, stack, j, caps, n) && m <= n
    ensures EndSafe(x, pc, opt, stack, j, caps, m)
  {
    hide Safe;
    if opt {
      forall pos: nat, level: nat
        ensures Safe(x, Run(pc, j, [Choice(stack[0].pc, pos, level)] + stack[1..], caps), m)
      {
        Less(x, Run(pc, j, [Choice(stack[0].pc, pos, level)] + stack[1..], caps), n, m);
      }
    } else {
      Less(x, Run(pc, j, stack, caps), n, m);
    }
  }

  /** One instruction takes a character or fails. */
  lemma CharMoves(x: Program, pc: int, t: Tree, opt: bool, tt: Test, fl: Charset, i: nat, stack: seq<Entry>, caps: seq<Capture>)
    requires IsCharset(t) && i <= |x.s| && Placed(x.code, pc, Gen(x.g, x.d, t, opt, tt, fl), x.env)
    ensures var next := Step(x.code, x.s, Run(pc, i, stack, caps));
      next == FailTo(stack, caps) ||
      (i < |x.s| && !t.TFalse? && next == Run(pc + |Gen(x.g, x.d, t, opt, tt, fl)|, i + 1, stack, caps))
  {
    hide GetFirst, CheckAux, FixedLen, HasCaptures, HeadFail, GenRep, GenNot, GenChoice, CorrectCalls, FailTo, Compact;
    PlacedAt(x, pc, Gen(x.g, x.d, t, opt, tt, fl));
    CompactLegal(t);
  }

  lemma SafeSingle(x: Program, pc: int, t: Tree, opt: bool, tt: Test, fl: Charset,
                   i: nat, stack: seq<Entry>, caps: seq<Capture>, n: nat)
    requires IsCharset(t) && Ready(x, t, opt, i, stack, caps)
    requires Placed(x.code, pc, Gen(x.g, x.d, t, opt, tt, fl), x.env)
    requires Exits(x, pc + |Gen(x.g, x.d, t, opt, tt, fl)|, opt, FixedLen(x.g, {}, t), i, stack, caps, n)
    ensures Safe(x, Run(pc, i, stack, caps), n)
  {
    hide Safe, Gen, Placed, RulesPlaced, Step, WellFormed, ReturnFollows;
    CharMoves(x, pc, t, opt, tt, fl, i, stack, caps);
    if i < |x.s| && !t.TFalse? {
      AtEnd(x, pc + |Gen(x.g, x.d, t, opt, tt, fl)|, opt, 1, i, stack, caps, n, i + 1, caps);
    }
    Now(x, Run(pc, i, stack, caps), n);
  }

  lemma {:induction false} SafeSeq(x: Program, pc: int, t: Tree, opt: bool, tt: Test, fl: Charset,
                   i: nat, stack: seq<Entry>, caps: seq<Capture>, n: nat)
    requires t.TSeq? && Ready(x, t, opt, i, stack, caps)
    requires Placed(x.code, pc, Gen(x.g, x.d, t, opt, tt, fl), x.env)
    requires Exits(x, pc + |Gen(x.g, x.d, t, opt, tt, fl)|, opt, FixedLen(x.g, {}, t), i, stack, caps, n)
    ensures Safe(x, Run(pc, i, stack, caps), n)
    decreases n, t, 0
  {
    hide Safe, Placed, RulesPlaced, GetFirst, CheckAux, HasCaptures, ReturnFollows, Used, Calls, Resolved;
    var p1, p2 := t.p1, t.p2;
    var f1, t2 := SeqFollow(x.g, x.d, p1, p2, fl), SeqTest(x.g, p1, tt);
    var c1, c2 := Gen(x.g, x.d, p1, false, tt, f1), Gen(x.g, x.d, p2, opt, t2, fl);
    var len, n1, n2 := FixedLen(x.g, {}, t), FixedLen(x.g, {}, p1), FixedLen(x.g, {}, p2);
    var mid := pc + |c1|;
    PlacedSplit(x.code, pc, c1, c2, x.env);
    forall j: nat, more | caps <= more && Lands(x, n1, i, j) ensures EndSafe(x, mid, false, stack, j, more, n) {
      Narrow(x, mid + |c2|, opt, stack, len, i, caps, n, n2, j, more, n);
      SafeCode(x, mid, p2, opt, t2, fl, j, stack, more, n);
    }
    if ReturnFollows(x.code, mid) {
      Falls(x, {}, mid, p2, opt, t2, fl);
      forall j: nat, more | caps <= more && Lands(x, n1, i, j) ensures TopSafe(x, stack, j, more, n) {
        assert Lands(x, len, i, j);
      }
    }
    SafeCode(x, pc, p1, false, tt, f1, i, stack, caps, n);
  }

  // ---- choice

  /** p1 of a tested choice leaves where the choice ends, or at a jump to there. */
  lemma TestedExits(x: Program, end1: int, end: int, opt: bool, len: int, n1: int,
                    i: nat, stack: seq<Entry>, caps: seq<Capture>, n: nat)
    requires (opt ==> |stack| > 0 && stack[0].Choice?) && (len >= 0 ==> len == n1)
    requires end1 == end || At(x, end1, IJmp(end - end1))
    requires Exits(x, end, opt, len, i, stack, caps, n)
    ensures Exits(x, end1, false, n1, i, stack, caps, n)
  {
    hide Safe, ReturnFollows;
    forall j: nat, more | caps <= more && Lands(x, n1, i, j) ensures EndSafe(x, end1, false, stack, j, more, n) {
      AtEnd(x, end, opt, len, i, stack, caps, n, j, more);
      if end1 != end {
        DoJmp(x, end1, end - end1, j, stack, more, n);
      }
    }
    if ReturnFollows(x.code, end1) {
      if end1 != end {
        JumpFollows(x, end1, end - end1);
      }
      forall j: nat, more | caps <= more && Lands(x, n1, i, j) ensures TopSafe(x, stack, j, more, n) {
        assert Lands(x, len, i, j);
      }
    }
  }

  lemma {:induction false} SafeChoiceTest(x: Program, pc: int, p1: Tree, p2: Tree, opt: bool, fl: Charset,
                   cs: Charset, c1: Code, c2: Code, i: nat, stack: seq<Entry>, caps: seq<Capture>, n: nat)
    requires Ready(x, TChoice(p1, p2), opt, i, stack, caps)
    requires c1 == Gen(x.g, x.d, p1, false, TestOf(First(cs, false)), fl)
    requires c2 == Gen(x.g, x.d, p2, opt, NoTest, fl)
    requires Placed(x.code, pc, TestedChoice(cs, c1, c2, p2), x.env)
    requires Exits(x, pc + |TestedChoice(cs, c1, c2, p2)|, opt, FixedLen(x.g, {}, TChoice(p1, p2)), i, stack, caps, n)
    ensures Safe(x, Run(pc, i, stack, caps), n)
    decreases n, TChoice(p1, p2), 0
  {
    hide Safe, Placed, RulesPlaced, GetFirst, CheckAux, HasCaptures, ReturnFollows, TestCode, TestSize, Exits, TestOf,
      Gen, HeadFail, Used, Calls, Resolved;
    TrueCode(x.g, x.d, p2, opt, fl);
    LayoutChoiceTest(x, pc, cs, c1, c2, p2);
    var jmp := |JumpOver(c2, p2)|;
    var mid := pc + TestSize(cs);
    if !p2.TTrue? {
      PlacedAt(x, mid + |c1|, JumpOver(c2, p2));
    }
    TestedExits(x, mid + |c1|, mid + |c1| + jmp + |c2|, opt, FixedLen(x.g, {}, TChoice(p1, p2)), FixedLen(x.g, {}, p1),
                i, stack, caps, n);
    SafeCode(x, mid, p1, false, TestOf(First(cs, false)), fl, i, stack, caps, n);
    Narrow(x, mid + |c1| + jmp + |c2|, opt, stack, FixedLen(x.g, {}, TChoice(p1, p2)), i, caps, n,
           FixedLen(x.g, {}, p2), i, caps, n);
    SafeCode(x, mid + |c1| + jmp, p2, opt, NoTest, fl, i, stack, caps, n);
    DoGuard(x, pc, First(cs, false), TestSize(cs) + |c1| + jmp, i, stack, caps, n);
  }

  lemma {:induction false} SafeChoicePartial(x: Program, pc: int, p1: Tree, c1: Code,
                   i: nat, stack: seq<Entry>, caps: seq<Capture>, n: nat)
    requires Ready(x, TChoice(p1, TTrue), true, i, stack, caps)
    requires c1 == Gen(x.g, x.d, p1, true, NoTest, FullSet())
    requires Placed(x.code, pc, [IPartialCommit(2), ISlot] + c1, x.env)
    requires Exits(x, pc + 2 + |c1|, true, FixedLen(x.g, {}, TChoice(p1, TTrue)), i, stack, caps, n)
    ensures Safe(x, Run(pc, i, stack, caps), n)
    decreases n, TChoice(p1, TTrue), 0
  {
    hide Safe, RulesPlaced, GetFirst, CheckAux, HasCaptures, ReturnFollows, Gen, HeadFail, Used, Calls, Resolved;
    PlacedSplit(x.code, pc, [IPartialCommit(2), ISlot], c1, x.env);
    PlacedAt(x, pc, [IPartialCommit(2), ISlot]);
    hide Placed;
    var rest := stack[1..];
    var moved := [Choice(stack[0].pc, i, |caps|)] + rest;
    assert moved[1..] == rest && [stack[0]] + rest == stack && caps[..|caps|] == caps;
    assert TopSafe(x, stack, i, caps, n);
    Moved(x, pc + 2 + |c1|, FixedLen(x.g, {}, TChoice(p1, TTrue)), FixedLen(x.g, {}, p1), i, stack, moved, caps, n);
    SafeCode(x, pc + 2, p1, true, NoTest, FullSet(), i, moved, caps, n);
    if n > 0 {
      Less(x, Run(pc + 2, i, moved, caps), n, n - 1);
    }
    DoPartialCommit(x, pc, 2, i, stack[0], rest, caps, n);
  }

  /** The alternative of an optional part may be moved to the current position. */
  lemma Moved(x: Program, pc: int, len: int, len2: int, i: nat, stack: seq<Entry>, moved: seq<Entry>, caps: seq<Capture>, n: nat)
    requires |stack| > 0 && Exits(x, pc, true, len, i, stack, caps, n) && i <= |x.s|
    requires (len >= 0 ==> len == len2 == 0) && (len2 == 0 ==> len == 0)
    requires moved == [Choice(stack[0].pc, i, |caps|)] + stack[1..]
    ensures Exits(x, pc, true, len2, i, moved, caps, n)
  {
    hide Safe, ReturnFollows;
    assert moved[1..] == stack[1..] && caps[..|caps|] == caps;
    assert TopSafe(x, stack, i, caps, n);
    forall j: nat, more | caps <= more && Lands(x, len2, i, j) ensures EndSafe(x, pc, true, moved, j, more, n) {
      assert EndSafe(x, pc, true, stack, j, more, n);
      forall pos: nat, level: nat
        ensures Safe(x, Run(pc, j, [Choice(moved[0].pc, pos, level)] + moved[1..], more), n)
      {
        assert Safe(x, Run(pc, j, [Choice(stack[0].pc, pos, level)] + stack[1..], more), n);
      }
    }
    forall j: nat, more | caps <= more && j <= |x.s| && (len2 == 0 ==> j == i) ensures TopSafe(x, moved, j, more, n) {
      assert TopSafe(x, stack, j, more, n);
    }
  }

  /** p1 of a stacked choice leaves at the commit, or its alternative goes on with p2. */
  lemma StackedExits(x: Program, commit: int, p1: Tree, p2: Tree, opt: bool, n2: nat,
                     i: nat, stack: seq<Entry>, caps: seq<Capture>, n: nat)
    requires Ready(x, TChoice(p1, p2), opt, i, stack, caps) && (p2.TTrue? ==> n2 == 0)
    requires At(x, commit, ICommit(n2 + 2)) && Safe(x, Run(commit + 2, i, stack, caps), n)
    requires Exits(x, commit + 2 + n2, opt, FixedLen(x.g, {}, TChoice(p1, p2)), i, stack, caps, n)
    ensures Exits(x, commit, p2.TTrue?, FixedLen(x.g, {}, p1), i, [Choice(commit + 2, i, |caps|)] + stack, caps, n)
  {
    hide Safe, Placed, RulesPlaced, GetFirst, CheckAux, HasCaptures, ReturnFollows;
    var inner := [Choice(commit + 2, i, |caps|)] + stack;
    var len, n1 := FixedLen(x.g, {}, TChoice(p1, p2)), FixedLen(x.g, {}, p1);
    assert inner[1..] == stack && caps[..|caps|] == caps;
    Stays(x, commit);
    forall j: nat, more | caps <= more && Lands(x, n1, i, j) ensures EndSafe(x, commit, p2.TTrue?, inner, j, more, n) {
      AtEnd(x, commit + 2 + n2, opt, len, i, stack, caps, n, j, more);
      forall pos: nat, level: nat {:trigger Choice(commit + 2, pos, level)}
        ensures Safe(x, Run(commit, j, [Choice(commit + 2, pos, level)] + stack, more), n)
      {
        DoCommit(x, commit, n2 + 2, j, Choice(commit + 2, pos, level), stack, more, n);
      }
    }
    if p2.TTrue? {
      forall j: nat, more | caps <= more && j <= |x.s| && (n1 == 0 ==> j == i) ensures TopSafe(x, inner, j, more, n) {
        AtEnd(x, commit + 2 + n2, opt, len, i, stack, caps, n, j, more);
      }
    }
  }

  lemma {:induction false} SafeChoiceStacked(x: Program, pc: int, p1: Tree, p2: Tree, opt: bool, fl: Charset,
                   f: First, c1: Code, c2: Code, i: nat, stack: seq<Entry>, caps: seq<Capture>, n: nat)
    requires Ready(x, TChoice(p1, p2), opt, i, stack, caps)
    requires c1 == Gen(x.g, x.d, p1, p2.TTrue?, TestOf(f), FullSet())
    requires c2 == Gen(x.g, x.d, p2, opt, NoTest, fl)
    requires Placed(x.code, pc, StackedChoice(f, c1, c2), x.env)
    requires Exits(x, pc + |StackedChoice(f, c1, c2)|, opt, FixedLen(x.g, {}, TChoice(p1, p2)), i, stack, caps, n)
    ensures Safe(x, Run(pc, i, stack, caps), n)
    decreases n, TChoice(p1, p2), 0
  {
    hide Safe, Placed, RulesPlaced, GetFirst, CheckAux, HasCaptures, ReturnFollows, TestCode, Guard, GuardSize, Exits,
      TestOf, Gen, HeadFail, Used, Calls, Resolved;
    TrueCode(x.g, x.d, p2, opt, fl);
    LayoutStackedChoice(x, pc, f, c1, c2);
    var a := pc + GuardSize(f);
    var commit := a + 2 + |c1|;
    Narrow(x, commit + 2 + |c2|, opt, stack, FixedLen(x.g, {}, TChoice(p1, p2)), i, caps, n,
           FixedLen(x.g, {}, p2), i, caps, n);
    SafeCode(x, commit + 2, p2, opt, NoTest, fl, i, stack, caps, n);
    StackedExits(x, commit, p1, p2, opt, |c2|, i, stack, caps, n);
    SafeCode(x, a + 2, p1, p2.TTrue?, TestOf(f), FullSet(), i, [Choice(commit + 2, i, |caps|)] + stack, caps, n);
    DoChoice(x, a, |c1| + 4, i, stack, caps, n);
    DoGuard(x, pc, f, GuardSize(f) + |c1| + 4, i, stack, caps, n);
  }

  // ---- repetition

  lemma {:induction false} CharLoop(x: Program, pc: int, end: int, p: Tree, i: nat, stack: seq<Entry>, caps: seq<Capture>, n: nat)
    requires (p.TAny? || p.TChar?) && i <= |x.s| && Placed(x.code, pc, RepCharset(p), x.env) && end == pc + 5
    requires forall j: nat :: j <= |x.s| ==> Safe(x, Run(end, j, stack, caps), n)
    ensures Safe(x, Run(pc, i, stack, caps), n)
    decreases |x.s| - i
  {
    hide Safe;
    var c := RepCharset(p);
    assert Realises(x.code, pc + 0, c[0], x.env);
    assert Realises(x.code, pc + 2, c[2], x.env);
    assert Realises(x.code, pc + 3, c[3], x.env);
    if i < |x.s| && (p.TAny? || x.s[i] == p.c) {
      CharLoop(x, pc, end, p, i + 1, stack, caps, n);
      DoJmp(x, pc + 3, -3, i + 1, stack, caps, n);
      Now(x, Run(pc + 2, i, stack, caps), n);
    }
    Now(x, Run(pc, i, stack, caps), n);
  }

  lemma SafeRepChar(x: Program, pc: int, p: Tree, opt: bool, i: nat, stack: seq<Entry>, caps: seq<Capture>, n: nat)
    requires IsCharset(p) && Ready(x, TRep(p), opt, i, stack, caps)
    requires Placed(x.code, pc, RepCharset(p), x.env)
    requires Exits(x, pc + |RepCharset(p)|, opt, -1, i, stack, caps, n)
    ensures Safe(x, Run(pc, i, stack, caps), n)
  {
    hide Safe, RulesPlaced, ReturnFollows, Exits, Used, Calls, Resolved;
    var end := pc + |RepCharset(p)|;
    forall j: nat | j <= |x.s| ensures Safe(x, Run(end, j, stack, caps), n) {
      AtEnd(x, end, opt, -1, i, stack, caps, n, j, caps);
    }
    if p.TSet? {
      PlacedAt(x, pc, RepCharset(p));
      Now(x, Run(pc, i, stack, caps), n);
    } else if p.TAny? || p.TChar? {
      CharLoop(x, pc, end, p, i, stack, caps, n);
    }
  }

  lemma {:induction false} SafeRepTest(x: Program, pc: int, p: Tree, opt: bool, cs: Charset, c: Code,
                   i: nat, stack: seq<Entry>, caps: seq<Capture>, n: nat)
    requires Ready(x, TRep(p), opt, i, stack, caps)
    requires c == Gen(x.g, x.d, p, false, TestOf(First(cs, false)), FullSet())
    requires Placed(x.code, pc, TestedLoop(cs, c), x.env)
    requires Exits(x, pc + |TestedLoop(cs, c)|, opt, -1, i, stack, caps, n)
    ensures Safe(x, Run(pc, i, stack, caps), n)
    decreases n, TRep(p), 0
  {
    hide Safe, Placed, RulesPlaced, GetFirst, CheckAux, HasCaptures, ReturnFollows, TestCode, TestSize, Exits, TestOf,
      Gen, HeadFail, Used, Calls, Resolved;
    LayoutTestedLoop(x, pc, cs, c);
    var mid := pc + TestSize(cs);
    var end := mid + |c|;
    if n > 0 {
      var m, len := n - 1, FixedLen(x.g, {}, p);
      if i < |x.s| && cs[x.s[i]] {
        forall j: nat, more | caps <= more && Lands(x, len, i, j) ensures EndSafe(x, end, false, stack, j, more, m) {
          Narrow(x, end + 2, opt, stack, -1, i, caps, n, -1, j, more, m);
          SafeRepTest(x, pc, p, opt, cs, c, j, stack, more, m);
          DoJmp(x, end, -(TestSize(cs) + |c|), j, stack, more, m);
        }
        if ReturnFollows(x.code, end) {
          JumpFollows(x, end, -(TestSize(cs) + |c|));
          TestFalls(x, pc, cs, TestSize(cs) + |c| + 2);
          assert false;
        }
        LoopExits(x, end, opt, len, i, stack, caps, n, m);
        SafeCode(x, mid, p, false, TestOf(First(cs, false)), FullSet(), i, stack, caps, m);
      } else {
        AtEnd(x, end + 2, opt, -1, i, stack, caps, n, i, caps);
        Less(x, Run(end + 2, i, stack, caps), n, m);
      }
    }
    DoTest(x, pc, cs, TestSize(cs) + |c| + 2, i, stack, caps, n);
  }

  lemma LoopExits(x: Program, end: int, opt: bool, len: int, i: nat, stack: seq<Entry>, caps: seq<Capture>, n: nat, m: nat)
    requires m <= n && (opt ==> |stack| > 0) && Exits(x, end + 2, opt, -1, i, stack, caps, n)
    requires forall j: nat, more :: caps <= more && Lands(x, len, i, j) ==> EndSafe(x, end, false, stack, j, more, m)
    requires !ReturnFollows(x.code, end)
    ensures Exits(x, end, false, len, i, stack, caps, m)
  {
    hide Safe, ReturnFollows;
    Less(x, FailTo(stack, caps), n, m);
  }

  /** The loop of a repetition whose alternative, at target, follows the current position. */
  lemma {:induction false} SafeLoop(x: Program, pc: int, target: int, p: Tree, c: Code,
                   i: nat, stack: seq<Entry>, caps: seq<Capture>, n: nat)
    requires Ready(x, TRep(p), false, i, stack, caps)
    requires c == Gen(x.g, x.d, p, false, NoTest, FullSet())
    requires Placed(x.code, pc, c, x.env) && At(x, pc + |c|, IPartialCommit(-|c|))
    requires forall j: nat, more :: caps <= more && j <= |x.s| ==> Safe(x, Run(target, j, stack, more), n)
    ensures Safe(x, Run(pc, i, [Choice(target, i, |caps|)] + stack, caps), n)
    decreases n, TRep(p), 0
  {
    hide Safe, Placed, RulesPlaced, GetFirst, CheckAux, HasCaptures, ReturnFollows, Gen, HeadFail, Used, Calls, Resolved;
    var inner := [Choice(target, i, |caps|)] + stack;
    var end, len := pc + |c|, FixedLen(x.g, {}, p);
    assert inner[1..] == stack && caps[..|caps|] == caps;
    forall j: nat, more | caps <= more && Lands(x, len, i, j) ensures EndSafe(x, end, false, inner, j, more, n) {
      if n > 0 {
        forall k: nat, last | more <= last && k <= |x.s| ensures Safe(x, Run(target, k, stack, last), n - 1) {
          Less(x, Run(target, k, stack, last), n, n - 1);
        }
        SafeLoop(x, pc, target, p, c, j, stack, more, n - 1);
      }
      DoPartialCommit(x, end, -|c|, j, inner[0], stack, more, n);
    }
    Stays(x, end);
    SafeCode(x, pc, p, false, NoTest, FullSet(), i, inner, caps, n);
  }

  lemma {:induction false} SafeRepStacked(x: Program, pc: int, p: Tree, opt: bool, f: First, c: Code,
                   i: nat, stack: seq<Entry>, caps: seq<Capture>, n: nat)
    requires Ready(x, TRep(p), opt, i, stack, caps)
    requires c == Gen(x.g, x.d, p, false, NoTest, FullSet())
    requires Placed(x.code, pc, StackedLoop(f, c, opt), x.env)
    requires Exits(x, pc + |StackedLoop(f, c, opt)|, opt, -1, i, stack, caps, n)
    ensures Safe(x, Run(pc, i, stack, caps), n)
    decreases n, TRep(p), 1
  {
    hide Safe, Placed, RulesPlaced, GetFirst, CheckAux, HasCaptures, ReturnFollows, TestCode, Guard, GuardSize, Gen,
      HeadFail, Used, Calls, Resolved;
    LayoutStackedLoop(x, pc, f, c, opt);
    var a := pc + GuardSize(f);
    var end := a + |c| + 4;
    AtEnd(x, end, opt, -1, i, stack, caps, n, i, caps);
    if opt {
      var rest := stack[1..];
      assert [stack[0]] + rest == stack;
      forall j: nat, more | caps <= more && j <= |x.s| ensures Safe(x, Run(stack[0].pc, j, rest, more), n) {
        assert TopSafe(x, stack, j, more, n);
      }
      SafeLoop(x, a + 2, stack[0].pc, p, c, i, rest, caps, n);
      if n > 0 {
        Less(x, Run(a + 2, i, [Choice(stack[0].pc, i, |caps|)] + rest, caps), n, n - 1);
      }
      DoPartialCommit(x, a, 2, i, stack[0], rest, caps, n);
    } else {
      forall j: nat, more | caps <= more && j <= |x.s| ensures Safe(x, Run(end, j, stack, more), n) {
        AtEnd(x, end, opt, -1, i, stack, caps, n, j, more);
      }
      SafeLoop(x, a + 2, end, p, c, i, stack, caps, n);
      DoChoice(x, a, |c| + 4, i, stack, caps, n);
    }
    DoGuard(x, pc, f, GuardSize(f) + |c| + 4, i, stack, caps, n);
  }

  // ---- predicates and captures

  lemma SafeNotTest(x: Program, pc: int, p: Tree, opt: bool, f: First, i: nat, stack: seq<Entry>, caps: seq<Capture>, n: nat)
    requires Ready(x, TNot(p), opt, i, stack, caps)
    requires Placed(x.code, pc, TestedNot(f), x.env)
    requires Exits(x, pc + |TestedNot(f)|, opt, 0, i, stack, caps, n)
    ensures Safe(x, Run(pc, i, stack, caps), n)
  {
    hide Safe, ReturnFollows, RulesPlaced, TestCode, Used, Calls, Resolved;
    var a := pc + GuardSize(f);
    GuardLength(f, GuardSize(f) + 1);
    PlacedSplit(x.code, pc, Guard(f, GuardSize(f) + 1), [IFail], x.env);
    PlacedAt(x, a, [IFail]);
    hide Placed, Guard, GuardSize;
    AtEnd(x, a + 1, opt, 0, i, stack, caps, n, i, caps);
    DoFail(x, a, i, stack, caps, n);
    DoGuard(x, pc, f, GuardSize(f) + 1, i, stack, caps, n);
  }

  lemma {:induction false} SafeNot(x: Program, pc: int, p: Tree, opt: bool, f: First, c: Code,
                   i: nat, stack: seq<Entry>, caps: seq<Capture>, n: nat)
    requires Ready(x, TNot(p), opt, i, stack, caps)
    requires c == Gen(x.g, x.d, p, false, NoTest, FullSet())
    requires Placed(x.code, pc, StackedNot(f, c), x.env)
    requires Exits(x, pc + |StackedNot(f, c)|, opt, 0, i, stack, caps, n)
    ensures Safe(x, Run(pc, i, stack, caps), n)
    decreases n, TNot(p), 0
  {
    hide Safe, Placed, RulesPlaced, GetFirst, CheckAux, HasCaptures, ReturnFollows, TestCode, Guard, GuardSize, Gen,
      HeadFail, Used, Calls, Resolved;
    LayoutStackedNot(x, pc, f, c);
    var a := pc + GuardSize(f);
    var end := a + |c| + 3;
    var last, len := a + 2 + |c|, FixedLen(x.g, {}, p);
    var inner := [Choice(end, i, |caps|)] + stack;
    assert inner[1..] == stack && caps[..|caps|] == caps;
    AtEnd(x, end, opt, 0, i, stack, caps, n, i, caps);
    forall j: nat, more | caps <= more && Lands(x, len, i, j) ensures EndSafe(x, last, false, inner, j, more, n) {
      FailSame(stack, caps, more);
      DoFailTwice(x, a + 2 + |c|, j, inner[0], stack, more, n);
    }
    Plain(x, last, len, i, inner, caps, n);
    SafeCode(x, a + 2, p, false, NoTest, FullSet(), i, inner, caps, n);
    DoChoice(x, a, |c| + 3, i, stack, caps, n);
    DoGuard(x, pc, f, GuardSize(f) + |c| + 3, i, stack, caps, n);
  }

  lemma {:induction false} SafeAnd(x: Program, pc: int, p: Tree, opt: bool, tt: Test, c: Code,
                   i: nat, stack: seq<Entry>, caps: seq<Capture>, n: nat)
    requires Ready(x, TAnd(p), opt, i, stack, caps)
    requires c == Gen(x.g, x.d, p, false, tt, FullSet())
    requires Placed(x.code, pc, StackedAnd(c), x.env)
    requires Exits(x, pc + |StackedAnd(c)|, opt, 0, i, stack, caps, n)
    ensures Safe(x, Run(pc, i, stack, caps), n)
    decreases n, TAnd(p), 0
  {
    hide Safe, Placed, RulesPlaced, GetFirst, CheckAux, HasCaptures, ReturnFollows, Gen, HeadFail, Used, Calls, Resolved;
    var choice, commit := [IChoice(|c| + 4), ISlot], [IBackCommit(3), ISlot];
    var fail := pc + |c| + 4;
    PlacedSplit(x.code, pc, choice + c + commit, [IFail], x.env);
    PlacedSplit(x.code, pc, choice + c, commit, x.env);
    PlacedSplit(x.code, pc, choice, c, x.env);
    PlacedAt(x, pc, choice);
    PlacedAt(x, pc + 2 + |c|, commit);
    PlacedAt(x, fail, [IFail]);
    var last, len := pc + 2 + |c|, FixedLen(x.g, {}, p);
    var inner := [Choice(fail, i, |caps|)] + stack;
    assert inner[1..] == stack && caps[..|caps|] == caps;
    AtEnd(x, fail + 1, opt, 0, i, stack, caps, n, i, caps);
    DoFail(x, fail, i, stack, caps, n);
    forall j: nat, more | caps <= more && Lands(x, len, i, j) ensures EndSafe(x, last, false, inner, j, more, n) {
      assert more[..|caps|] == caps;
      DoBackCommit(x, pc + 2 + |c|, 3, j, inner[0], stack, more, n);
    }
    Plain(x, last, len, i, inner, caps, n);
    SafeCode(x, pc + 2, p, false, tt, FullSet(), i, inner, caps, n);
    DoChoice(x, pc, |c| + 4, i, stack, caps, n);
  }

  /** Stepping back over p: nothing, or one instruction, behind its code. */
  lemma {:induction false} SafeAndLength(x: Program, pc: int, p: Tree, opt: bool, tt: Test, c: Code,
                   i: nat, stack: seq<Entry>, caps: seq<Capture>, n: nat)
    requires Ready(x, TAnd(p), opt, i, stack, caps) && FixedLen(x.g, {}, p) >= 0
    requires c == Gen(x.g, x.d, p, false, tt, FullSet())
    requires Placed(x.code, pc, c + StepBack(FixedLen(x.g, {}, p)), x.env)
    requires Exits(x, pc + |c + StepBack(FixedLen(x.g, {}, p))|, opt, 0, i, stack, caps, n)
    ensures Safe(x, Run(pc, i, stack, caps), n)
    decreases n, TAnd(p), 0
  {
    hide Safe, Placed, RulesPlaced, GetFirst, CheckAux, HasCaptures, ReturnFollows, Gen, HeadFail, Used, Calls, Resolved;
    var len := FixedLen(x.g, {}, p);
    var back, end := StepBack(len), pc + |c|;
    PlacedSplit(x.code, pc, c, back, x.env);
    if len > 0 {
      PlacedAt(x, end, back);
      Stays(x, end);
    }
    forall j: nat, more | caps <= more && Lands(x, len, i, j) ensures EndSafe(x, end, false, stack, j, more, n) {
      AtEnd(x, end + |back|, opt, 0, i, stack, caps, n, i, more);
      if len > 0 {
        DoBehind(x, end, len, j, stack, more, n);
      }
    }
    SafeCode(x, pc, p, false, tt, FullSet(), i, stack, caps, n);
  }

  lemma {:induction false} SafeBehind(x: Program, pc: int, k: nat, p: Tree, opt: bool, c: Code,
                   i: nat, stack: seq<Entry>, caps: seq<Capture>, n: nat)
    requires Ready(x, TBehind(k, p), opt, i, stack, caps)
    requires c == Gen(x.g, x.d, p, false, NoTest, FullSet())
    requires Placed(x.code, pc, StepBack(k) + c, x.env)
    requires Exits(x, pc + |StepBack(k) + c|, opt, 0, i, stack, caps, n)
    ensures Safe(x, Run(pc, i, stack, caps), n)
    decreases n, TBehind(k, p), 0
  {
    hide Safe, Placed, RulesPlaced, GetFirst, CheckAux, HasCaptures, ReturnFollows, Gen, HeadFail, Used, Calls, Resolved;
    var a := pc + |StepBack(k)|;
    PlacedSplit(x.code, pc, StepBack(k), c, x.env);
    if k <= i {
      var start, end := i - k, a + |c|;
      forall j: nat, more | caps <= more && Lands(x, k, start, j) ensures EndSafe(x, end, false, stack, j, more, n) {
        AtEnd(x, end, opt, 0, i, stack, caps, n, j, more);
      }
      forall j: nat, more | ReturnFollows(x.code, end) && caps <= more && Lands(x, k, start, j)
        ensures TopSafe(x, stack, j, more, n)
      {
        assert Lands(x, 0, i, j);
      }
      SafeCode(x, a, p, false, NoTest, FullSet(), start, stack, caps, n);
    }
    if k > 0 {
      PlacedAt(x, pc, StepBack(k));
      DoBehind(x, pc, k, i, stack, caps, n);
    }
  }

  lemma {:induction false} SafeCaptureShort(x: Program, pc: int, kind: nat, p: Tree, opt: bool, tt: Test, fl: Charset, c: Code,
                   i: nat, stack: seq<Entry>, caps: seq<Capture>, n: nat)
    requires Ready(x, TCapture(kind, p), opt, i, stack, caps) && FixedLen(x.g, {}, p) >= 0
    requires c == Gen(x.g, x.d, p, false, tt, fl)
    requires Placed(x.code, pc, c + [IFullCapture(kind, FixedLen(x.g, {}, p))], x.env)
    requires Exits(x, pc + |c| + 1, opt, FixedLen(x.g, {}, p), i, stack, caps, n)
    ensures Safe(x, Run(pc, i, stack, caps), n)
    decreases n, TCapture(kind, p), 0
  {
    hide Safe, Placed, RulesPlaced, GetFirst, CheckAux, HasCaptures, ReturnFollows, Gen, HeadFail, Used, Calls, Resolved;
    var len, end := FixedLen(x.g, {}, p), pc + |c|;
    var full := IFullCapture(kind, len);
    PlacedSplit(x.code, pc, c, [full], x.env);
    PlacedAt(x, end, [full]);
    forall j: nat, more | caps <= more && Lands(x, len, i, j) ensures EndSafe(x, end, false, stack, j, more, n) {
      var e := Full(kind, j - len, len);
      assert more <= more + [e];
      AtEnd(x, end + 1, opt, len, i, stack, caps, n, j, more + [e]);
      DoCapture(x, end, full, j, stack, more, e, n);
    }
    Plain(x, end, len, i, stack, caps, n);
    SafeCode(x, pc, p, false, tt, fl, i, stack, caps, n);
  }

  lemma {:induction false} SafeCapture(x: Program, pc: int, kind: nat, p: Tree, opt: bool, tt: Test, fl: Charset, c: Code,
                   i: nat, stack: seq<Entry>, caps: seq<Capture>, n: nat)
    requires Ready(x, TCapture(kind, p), opt, i, stack, caps)
    requires c == Gen(x.g, x.d, p, false, tt, fl)
    requires Placed(x.code, pc, [IOpenCapture(kind)] + c + [ICloseCapture], x.env)
    requires Exits(x, pc + |c| + 2, opt, FixedLen(x.g, {}, p), i, stack, caps, n)
    ensures Safe(x, Run(pc, i, stack, caps), n)
    decreases n, TCapture(kind, p), 0
  {
    hide Safe, Placed, RulesPlaced, GetFirst, CheckAux, HasCaptures, ReturnFollows, Gen, HeadFail, Used, Calls, Resolved;
    var len, end := FixedLen(x.g, {}, p), pc + 1 + |c|;
    PlacedSplit(x.code, pc, [IOpenCapture(kind)] + c, [ICloseCapture], x.env);
    PlacedSplit(x.code, pc, [IOpenCapture(kind)], c, x.env);
    PlacedAt(x, pc, [IOpenCapture(kind)]);
    PlacedAt(x, end, [ICloseCapture]);
    var begun := caps + [Open(kind, i)];
    FailSame(stack, caps, begun);
    forall j: nat, more | begun <= more && Lands(x, len, i, j) ensures EndSafe(x, end, false, stack, j, more, n) {
      assert caps <= more + [Close(j)];
      AtEnd(x, end + 1, opt, len, i, stack, caps, n, j, more + [Close(j)]);
      DoCapture(x, end, ICloseCapture, j, stack, more, Close(j), n);
    }
    Plain(x, end, len, i, stack, begun, n);
    SafeCode(x, pc + 1, p, false, tt, fl, i, stack, begun, n);
    DoCapture(x, pc, IOpenCapture(kind), i, stack, caps, Open(kind, i), n);
  }

  // ---- calls and grammars

  /** A rule that returns to where its call goes on. */
  lemma ReturnExits(x: Program, ret: int, next: int, len: int, i: nat, stack: seq<Entry>, caps: seq<Capture>, n: nat)
    requires At(x, ret, IRet) && Safe(x, FailTo(stack, caps), n)
    requires forall j: nat, more :: caps <= more && Lands(x, len, i, j) ==> Safe(x, Run(next, j, stack, more), n)
    ensures Exits(x, ret, false, len, i, [Return(next)] + stack, caps, n)
  {
    hide Safe, ReturnFollows;
    var inner := [Return(next)] + stack;
    assert inner[1..] == stack;
    forall j: nat, more | caps <= more && Lands(x, len, i, j) ensures EndSafe(x, ret, false, inner, j, more, n) {
      Now(x, Run(ret, j, inner, more), n);
    }
  }

  lemma CallExits(x: Program, ret: int, next: int, opt: bool, len: int, i: nat, stack: seq<Entry>, caps: seq<Capture>, n: nat)
    requires At(x, ret, IRet) && (opt ==> |stack| > 0 && stack[0].Choice?)
    requires Exits(x, next, opt, len, i, stack, caps, n)
    ensures Exits(x, ret, false, len, i, [Return(next)] + stack, caps, n)
  {
    hide Safe, ReturnFollows;
    forall j: nat, more | caps <= more && Lands(x, len, i, j) ensures Safe(x, Run(next, j, stack, more), n) {
      AtEnd(x, next, opt, len, i, stack, caps, n, j, more);
    }
    ReturnExits(x, ret, next, len, i, stack, caps, n);
  }

  /** A rule entered by a jump returns for its caller. */
  lemma TailExits(x: Program, ret: int, next: int, len: int, i: nat, stack: seq<Entry>, caps: seq<Capture>, n: nat)
    requires At(x, ret, IRet) && ReturnFollows(x.code, next) && Exits(x, next, false, len, i, stack, caps, n)
    ensures Exits(x, ret, false, len, i, stack, caps, n)
  {
    hide Safe, ReturnFollows;
    forall j: nat, more | caps <= more && Lands(x, len, i, j) ensures EndSafe(x, ret, false, stack, j, more, n) {
      assert TopSafe(x, stack, j, more, n);
      Now(x, Run(ret, j, stack, more), n);
    }
  }

  /** The code of a rule, as its caller enters it. */
  lemma {:induction false} SafeRule(x: Program, r: nat, i: nat, stack: seq<Entry>, caps: seq<Capture>, n: nat)
    requires RulesPlaced(x) && Used(x.g, r) && i <= |x.s| && LevelsBelow(stack, |caps|)
    requires Exits(x, x.env[r] + |Gen(x.g, x.d, x.g[r], false, NoTest, FullSet())|, false, FixedLen(x.g, {}, x.g[r]),
                   i, stack, caps, n)
    ensures Safe(x, Run(x.env[r], i, stack, caps), n)
    decreases n, x.g[r], 4
  {
    RuleAt(x, r);
    hide Safe, Placed, RulesPlaced, Gen, At, WellFormed, Exits, LevelsBelow, Used, Calls, FixedLen;
    SafeCode(x, x.env[r], x.g[r], false, NoTest, FullSet(), i, stack, caps, n);
  }

  lemma {:induction false} SafeCallBack(x: Program, pc: int, r: nat, opt: bool,
                   i: nat, stack: seq<Entry>, caps: seq<Capture>, n: nat)
    requires RulesPlaced(x) && Used(x.g, r) && i <= |x.s| && LevelsBelow(stack, |caps|)
    requires (opt ==> |stack| > 0 && stack[0].Choice?) && At(x, pc, ICall(x.env[r] - pc))
    requires Exits(x, pc + 2, opt, FixedLen(x.g, {}, x.g[r]), i, stack, caps, n)
    ensures Safe(x, Run(pc, i, stack, caps), n + 1)
    decreases n, x.g[r], 5
  {
    hide Safe, Placed, RulesPlaced, Gen, At, WellFormed, LevelsBelow, Used, Calls, FixedLen, ReturnFollows, Exits;
    RuleAt(x, r);
    Levels(stack, pc + 2, |caps|);
    var ret := x.env[r] + |Gen(x.g, x.d, x.g[r], false, NoTest, FullSet())|;
    CallExits(x, ret, pc + 2, opt, FixedLen(x.g, {}, x.g[r]), i, stack, caps, n);
    SafeRule(x, r, i, [Return(pc + 2)] + stack, caps, n);
    DoCall(x, pc, x.env[r] - pc, i, stack, caps, n + 1);
  }

  lemma NoTail(x: Program, pc: int, opt: bool, len: int, i: nat, stack: seq<Entry>, caps: seq<Capture>, n: nat)
    requires (opt ==> |stack| > 0) && Exits(x, pc, opt, len, i, stack, caps, n) && ReturnFollows(x.code, pc)
    ensures !opt
  {
  }

  lemma {:induction false} SafeTailCall(x: Program, pc: int, r: nat, opt: bool,
                   i: nat, stack: seq<Entry>, caps: seq<Capture>, n: nat)
    requires RulesPlaced(x) && Used(x.g, r) && i <= |x.s| && LevelsBelow(stack, |caps|) && (opt ==> |stack| > 0)
    requires At(x, pc, IJmp(x.env[r] - pc)) && ReturnFollows(x.code, pc + 2)
    requires Exits(x, pc + 2, opt, FixedLen(x.g, {}, x.g[r]), i, stack, caps, n)
    ensures Safe(x, Run(pc, i, stack, caps), n + 1)
    decreases n, x.g[r], 5
  {
    hide Safe, Placed, RulesPlaced, Gen, WellFormed, LevelsBelow, Used, Calls, FixedLen, ReturnFollows, Exits;
    RuleAt(x, r);
    NoTail(x, pc + 2, opt, FixedLen(x.g, {}, x.g[r]), i, stack, caps, n);
    var ret := x.env[r] + |Gen(x.g, x.d, x.g[r], false, NoTest, FullSet())|;
    TailExits(x, ret, pc + 2, FixedLen(x.g, {}, x.g[r]), i, stack, caps, n);
    SafeRule(x, r, i, stack, caps, n);
    Later(x, Run(pc, i, stack, caps), n + 1);
  }

  lemma {:induction false} SafeCall(x: Program, pc: int, r: nat, opt: bool,
                   i: nat, stack: seq<Entry>, caps: seq<Capture>, n: nat)
    requires Ready(x, TCall(r), opt, i, stack, caps) && n > 0
    requires Placed(x.code, pc, [IOpenCall(r), ISlot], x.env)
    requires Exits(x, pc + 2, opt, FixedLen(x.g, {}, TCall(r)), i, stack, caps, n)
    ensures Safe(x, Run(pc, i, stack, caps), n)
    decreases n, TCall(r), 0
  {
    CallAt(x, pc, r);
    hide Safe, Placed, At, ReturnFollows, Calls, Exits, LevelsBelow;
    var len, inside := FixedLen(x.g, {}, TCall(r)), FixedLen(x.g, {}, x.g[r]);
    if len >= 0 {
      FixedLenReopen(x.g, {}, {} + {r}, x.g[r]);
    }
    Narrow(x, pc + 2, opt, stack, len, i, caps, n, inside, i, caps, n - 1);
    if At(x, pc, ICall(x.env[r] - pc)) {
      SafeCallBack(x, pc, r, opt, i, stack, caps, n - 1);
    } else {
      SafeTailCall(x, pc, r, opt, i, stack, caps, n - 1);
    }
  }

  lemma {:induction false} SafeGrammar(x: Program, pc: int, t: Tree, opt: bool, tt: Test, fl: Charset,
                   i: nat, stack: seq<Entry>, caps: seq<Capture>, n: nat)
    requires t.TGrammar? && Ready(x, t, opt, i, stack, caps) && n > 0
    requires Placed(x.code, pc, Gen(x.g, x.d, t, opt, tt, fl), x.env)
    requires Exits(x, pc + |Gen(x.g, x.d, t, opt, tt, fl)|, opt, FixedLen(x.g, {}, t), i, stack, caps, n)
    ensures Safe(x, Run(pc, i, stack, caps), n)
    decreases n, t, 0
  {
    hide Safe, Placed, CorrectCalls, GenRules, ReturnFollows, GetFirst, CheckAux, HasCaptures;
    var rules := t.rules;
    var y := Inner(x, pc, t);
    var k := |GenRules(rules, x.d, t, |rules|)|;
    GrammarPlaced(x, pc, t, opt, tt, fl);
    var body := Gen(rules, x.d, rules[0], false, NoTest, FullSet());
    var ret, len := y.env[0] + |body|, FixedLen(rules, {}, rules[0]);
    PlacedSplit(x.code, y.env[0], body, [IRet], y.env);
    PlacedAt(y, ret, [IRet]);
    var next, m := pc + 2, n - 1;
    SameSafe(x, y);
    Less(x, FailTo(stack, caps), n, m);
    forall j: nat, more | caps <= more && Lands(y, len, i, j) ensures Safe(y, Run(next, j, stack, more), m) {
      AtEnd(x, pc + 4 + k, opt, len, i, stack, caps, n, j, more);
      DoJmp(x, next, k + 2, j, stack, more, n);
      Less(x, Run(next, j, stack, more), n, m);
    }
    assert Used(rules, 0);
    ReturnExits(y, ret, next, len, i, stack, caps, m);
    SafeCode(y, y.env[0], rules[0], false, NoTest, FullSet(), i, [Return(next)] + stack, caps, m);
    DoCall(x, pc, 4, i, stack, caps, n);
  }

  lemma SameSafe(x: Program, y: Program)
    requires x.code == y.code && x.s == y.s
    ensures forall st, n: nat :: Safe(x, st, n) <==> Safe(y, st, n)
  {
  }

  // ---- putting the cases together

  lemma {:induction false} SafeChoice(x: Program, pc: int, t: Tree, opt: bool, tt: Test, fl: Charset,
                   i: nat, stack: seq<Entry>, caps: seq<Capture>, n: nat)
    requires t.TChoice? && Ready(x, t, opt, i, stack, caps)
    requires Placed(x.code, pc, Gen(x.g, x.d, t, opt, tt, fl), x.env)
    requires Exits(x, pc + |Gen(x.g, x.d, t, opt, tt, fl)|, opt, FixedLen(x.g, {}, t), i, stack, caps, n)
    ensures Safe(x, Run(pc, i, stack, caps), n)
    decreases n, t, 1
  {
    hide Safe, RulesPlaced, Placed, GetFirst, TestOf, CheckAux, FixedLen, HasCaptures, ByTest, Exits, GenRep, GenNot,
      HeadFail, TestCode, Used, Calls, Resolved, Gen, GenChoice, TestedChoice, StackedChoice, TestedLoop, StackedLoop;
    var p1, p2 := t.p1, t.p2;
    var f := GetFirst(x.g, x.d, p1, FullSet());
    ChoiceCode(x.g, x.d, p1, p2, opt, tt, fl);
    if ByTest(x.g, x.d, p1, p2, fl) {
      var c1 := Gen(x.g, x.d, p1, false, TestOf(First(f.set_, false)), fl);
      SafeChoiceTest(x, pc, p1, p2, opt, fl, f.set_, c1, Gen(x.g, x.d, p2, opt, NoTest, fl), i, stack, caps, n);
    } else if opt && p2.TTrue? {
      SafeChoicePartial(x, pc, p1, Gen(x.g, x.d, p1, true, NoTest, FullSet()), i, stack, caps, n);
    } else {
      var c1 := Gen(x.g, x.d, p1, p2.TTrue?, TestOf(f), FullSet());
      SafeChoiceStacked(x, pc, p1, p2, opt, fl, f, c1, Gen(x.g, x.d, p2, opt, NoTest, fl), i, stack, caps, n);
    }
  }

  lemma {:induction false} SafeRep(x: Program, pc: int, t: Tree, opt: bool, tt: Test, fl: Charset,
                   i: nat, stack: seq<Entry>, caps: seq<Capture>, n: nat)
    requires t.TRep? && Ready(x, t, opt, i, stack, caps)
    requires Placed(x.code, pc, Gen(x.g, x.d, t, opt, tt, fl), x.env)
    requires Exits(x, pc + |Gen(x.g, x.d, t, opt, tt, fl)|, opt, -1, i, stack, caps, n)
    ensures Safe(x, Run(pc, i, stack, caps), n)
    decreases n, t, 2
  {
    hide Safe, RulesPlaced, Placed, GetFirst, TestOf, CheckAux, FixedLen, HasCaptures, RepByTest, Exits, GenChoice,
      GenNot, HeadFail, TestCode, Used, Calls, Resolved, Gen, GenRep, TestedChoice, StackedChoice, TestedLoop,
      StackedLoop;
    var p := t.p;
    var f := GetFirst(x.g, x.d, p, FullSet());
    RepCode(x.g, x.d, p, opt, tt, fl);
    if IsCharset(p) {
      SafeRepChar(x, pc, p, opt, i, stack, caps, n);
    } else if RepByTest(x.g, x.d, p, fl) {
      SafeRepTest(x, pc, p, opt, f.set_, Gen(x.g, x.d, p, false, TestOf(First(f.set_, false)), FullSet()), i, stack, caps, n);
    } else {
      SafeRepStacked(x, pc, p, opt, f, Gen(x.g, x.d, p, false, NoTest, FullSet()), i, stack, caps, n);
    }
  }

  lemma {:induction false} SafePredicate(x: Program, pc: int, t: Tree, opt: bool, tt: Test, fl: Charset,
                   i: nat, stack: seq<Entry>, caps: seq<Capture>, n: nat)
    requires (t.TNot? || t.TAnd? || t.TBehind? || t.TCapture?) && Ready(x, t, opt, i, stack, caps)
    requires Placed(x.code, pc, Gen(x.g, x.d, t, opt, tt, fl), x.env)
    requires Exits(x, pc + |Gen(x.g, x.d, t, opt, tt, fl)|, opt, FixedLen(x.g, {}, t), i, stack, caps, n)
    ensures Safe(x, Run(pc, i, stack, caps), n)
    decreases n, t, 1
  {
    hide Safe, RulesPlaced, Placed, GetFirst, CheckAux, HasCaptures, Exits, GenRep, GenChoice, HeadFail, TestCode,
      Used, Calls, Resolved;
    var p := t.p;
    match t
    case TNot(_) =>
      var f := GetFirst(x.g, x.d, p, FullSet());
      assert Gen(x.g, x.d, t, opt, tt, fl) == GenNot(x.g, x.d, p);
      if HeadFail(x.g, x.d, p) {
        SafeNotTest(x, pc, p, opt, f, i, stack, caps, n);
      } else {
        SafeNot(x, pc, p, opt, f, Gen(x.g, x.d, p, false, NoTest, FullSet()), i, stack, caps, n);
      }
    case TAnd(_) =>
      var c := Gen(x.g, x.d, p, false, tt, FullSet());
      if AndByLength(x.g, p) {
        SafeAndLength(x, pc, p, opt, tt, c, i, stack, caps, n);
      } else {
        SafeAnd(x, pc, p, opt, tt, c, i, stack, caps, n);
      }
    case TBehind(k, _) => SafeBehind(x, pc, k, p, opt, Gen(x.g, x.d, p, false, NoTest, FullSet()), i, stack, caps, n);
    case TCapture(kind, _) =>
      var c := Gen(x.g, x.d, p, false, tt, fl);
      if ShortBody(x.g, p) {
        SafeCaptureShort(x, pc, kind, p, opt, tt, fl, c, i, stack, caps, n);
      } else {
        SafeCapture(x, pc, kind, p, opt, tt, fl, c, i, stack, caps, n);
      }
  }

  /** Code whose every exit is safe for n steps is itself safe for n steps. */
  lemma {:induction false} SafeCode(x: Program, pc: int, t: Tree, opt: bool, tt: Test, fl: Charset,
                   i: nat, stack: seq<Entry>, caps: seq<Capture>, n: nat)
    requires Ready(x, t, opt, i, stack, caps)
    requires Placed(x.code, pc, Gen(x.g, x.d, t, opt, tt, fl), x.env)
    requires Exits(x, pc + |Gen(x.g, x.d, t, opt, tt, fl)|, opt, FixedLen(x.g, {}, t), i, stack, caps, n)
    ensures Safe(x, Run(pc, i, stack, caps), n)
    decreases n, t, 3
  {
    hide Exits, RulesPlaced, Placed, GetFirst, CheckAux, HasCaptures, GenRep, GenChoice, GenNot, HeadFail, TestCode,
      CorrectCalls, Used, Calls, Resolved;
    if n > 0 {
      hide Safe;
      match t
      case TChar(_) => SafeSingle(x, pc, t, opt, tt, fl, i, stack, caps, n);
      case TSet(_) => SafeSingle(x, pc, t, opt, tt, fl, i, stack, caps, n);
      case TAny => SafeSingle(x, pc, t, opt, tt, fl, i, stack, caps, n);
      case TFalse => SafeSingle(x, pc, t, opt, tt, fl, i, stack, caps, n);
      case TTrue => AtEnd(x, pc, opt, 0, i, stack, caps, n, i, caps);
      case TSeq(_, _) => SafeSeq(x, pc, t, opt, tt, fl, i, stack, caps, n);
      case TChoice(_, _) => SafeChoice(x, pc, t, opt, tt, fl, i, stack, caps, n);
      case TRep(_) => SafeRep(x, pc, t, opt, tt, fl, i, stack, caps, n);
      case TCall(r) => SafeCall(x, pc, r, opt, i, stack, caps, n);
      case TGrammar(_) => SafeGrammar(x, pc, t, opt, tt, fl, i, stack, caps, n);
      case _ => SafePredicate(x, pc, t, opt, tt, fl, i, stack, caps, n);
    }
  }

  // ---- the whole pattern

  /** No run of the emitted code is ever stuck. */
  lemma CodeSafe(d: nat, t: Tree, s: Subject, i: nat, n: nat)
    requires WellFormed([], d, t) && i <= |s|
    ensures Steps(WholeCode(d, t), s, Start(i), n) != Stuck
  {
    hide Gen, Placed, ReturnFollows, CheckAux, GetFirst, HasCaptures, FixedLen, Resolved;
    var c := Gen([], d, t, false, NoTest, FullSet());
    var x := Program(WholeCode(d, t), s, [], d, []);
    var stack := [Choice(GIVEUP, i, 0)];
    WholePlaced(d, t);
    assert x.code[|c|] == IEnd;
    EndsSafe(x, |c|, FixedLen([], {}, t), i, stack, n);
    SafeCode(x, 0, t, false, NoTest, FullSet(), i, stack, [], n);
  }

  lemma EndsSafe(x: Program, end: int, len: int, i: nat, stack: seq<Entry>, n: nat)
    requires At(x, end, IEnd) && i <= |x.s| && stack == [Choice(GIVEUP, i, 0)]
    ensures Exits(x, end, false, len, i, stack, [], n)
  {
    hide ReturnFollows;
    var none: seq<Capture> := [];
    StepsStay(x.code, x.s, Halt(NoMatch), n);
    assert FailTo(stack, none) == Run(GIVEUP, i, [], none);
    Now(x, Run(GIVEUP, i, [], none), n);
    forall j: nat, more | none <= more && Lands(x, len, i, j) ensures EndSafe(x, end, false, stack, j, more, n) {
      StepsStay(x.code, x.s, Halt(Matched(j, more)), n);
      Now(x, Run(end, j, stack, more), n);
    }
    Stays(x, end);
  }
}
