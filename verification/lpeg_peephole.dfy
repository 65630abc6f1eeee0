/**
 peephole (3rd/lpeg/lpcode.c:992-1031): labels are moved to the end of the chain of jumps
 they point at, and a jump to an instruction that never falls through becomes that
 instruction. The machine cannot tell the difference.
 */
module Peephole {
  import opened Charsets
  import opened Semantics
  import opened Machine
  import opened CodeGen
  import opened Placement

  /** Instructions with a label besides the plain jump. */
  predicate Labelled(c: Instr) { HasOffset(c) && !c.IJmp? }

  function Relabel(c: Instr, off: int): Instr
    requires Labelled(c)
  {
    match c
    case IChoice(_) => IChoice(off)
    case ICall(_) => ICall(off)
    case ICommit(_) => ICommit(off)
    case IPartialCommit(_) => IPartialCommit(off)
    case IBackCommit(_) => IBackCommit(off)
    case ITestAny(_) => ITestAny(off)
    case ITestChar(b, _) => ITestChar(b, off)
    case ITestSet(cs, _) => ITestSet(cs, off)
  }

  predicate Ending(c: Instr) { c.IRet? || c.IFail? || c.IFailTwice? || c.IEnd? }

  predicate Committing(c: Instr) { c.ICommit? || c.IPartialCommit? || c.IBackCommit? }

  /** finaltarget, with a bound no chain without a cycle reaches. */
  function Target(code: Code, i: int): int { FinalTarget(code, i, |code|) }

  /** What one turn of the loop makes of slot i. */
  function Optimize(code: Code, i: nat): (r: Code)
    requires i < |code|
    ensures |r| == |code|
  {
    if Labelled(code[i]) then
      var q := Target(code, i + code[i].off);
      if q < 0 then code else code[i := Relabel(code[i], q - i)]
    else if code[i].IJmp? then
      var ft := Target(code, i);
      if ft < 0 then code
      else if Ending(code[ft]) then
        var copied := code[i := code[ft]];
        if i + 1 < |code| then copied[i + 1 := IEmpty] else copied
      else if Committing(code[ft]) then
        var fft := Target(code, ft + code[ft].off);
        if fft < 0 then code else code[i := Relabel(code[ft], fft - i)]
      else code[i := IJmp(ft - i)]
    else code
  }

  /** peephole from slot i on. */
  function Optimized(code: Code, i: nat): Code
    decreases |code| - i
  {
    if i >= |code| then code
    else
      var next := Optimize(code, i);
      Optimized(next, i + Size(next[i]))
  }

  // ---- states that differ only by jumps

  /** n jumps on from q, or as many as there are. */
  ghost function Chain(code: Code, q: int, n: nat): int
    decreases n
  {
    if n > 0 && 0 <= q < |code| && code[q].IJmp? then Chain(code, q + code[q].off, n - 1) else q
  }

  /** The jumps from a and from b meet. */
  ghost predicate Meet(code: Code, a: int, b: int) {
    exists n: nat, m: nat :: Chain(code, a, n) == Chain(code, b, m)
  }

  ghost predicate SameEntry(code: Code, a: Entry, b: Entry) {
    Meet(code, a.pc, b.pc) && (a.Choice? <==> b.Choice?) && (a.Choice? ==> a.pos == b.pos && a.level == b.level)
  }

  ghost predicate SameStack(code: Code, a: seq<Entry>, b: seq<Entry>) {
    |a| == |b| && forall k :: 0 <= k < |a| ==> SameEntry(code, a[k], b[k])
  }

  ghost predicate SameState(code: Code, a: State, b: State) {
    if a.Run? && b.Run? then
      Meet(code, a.pc, b.pc) && a.pos == b.pos && a.caps == b.caps && SameStack(code, a.stack, b.stack)
    else a == b
  }

  lemma MeetSelf(code: Code, a: int)
    ensures Meet(code, a, a)
  {
    assert Chain(code, a, 0) == a;
  }

  lemma {:induction false} ChainMore(code: Code, q: int, n: nat)
    ensures Chain(code, q, n + 1) == Chain(code, Chain(code, q, n), 1)
    decreases n
  {
    if n > 0 && 0 <= q < |code| && code[q].IJmp? {
      ChainMore(code, q + code[q].off, n - 1);
    }
  }

  /** Taking one jump keeps two addresses together. */
  lemma MeetJump(code: Code, a: int, b: int)
    requires 0 <= a < |code| && code[a].IJmp? && Meet(code, a, b)
    ensures Meet(code, a + code[a].off, b)
  {
    var n: nat, m: nat :| Chain(code, a, n) == Chain(code, b, m);
    if n > 0 {
      assert Chain(code, a + code[a].off, n - 1) == Chain(code, b, m);
    } else {
      ChainMore(code, b, m);
      assert Chain(code, a + code[a].off, 0) == Chain(code, a, 1) == Chain(code, b, m + 1);
    }
  }

  lemma {:induction false} TargetChain(code: Code, q: int, bound: nat)
    requires FinalTarget(code, q, bound) >= 0
    ensures Chain(code, q, bound) == FinalTarget(code, q, bound)
    decreases bound
  {
    if code[q].IJmp? {
      TargetChain(code, q + code[q].off, bound - 1);
    }
  }

  lemma TargetMeets(code: Code, q: int)
    requires Target(code, q) >= 0
    ensures Meet(code, q, Target(code, q))
  {
    TargetChain(code, q, |code|);
    assert Chain(code, q, |code|) == Chain(code, Target(code, q), 0);
  }

  lemma {:induction false} SameFail(code: Code, a: seq<Entry>, b: seq<Entry>, caps: seq<Capture>)
    requires SameStack(code, a, b)
    ensures SameState(code, FailTo(a, caps), FailTo(b, caps))
  {
    if |a| > 0 {
      assert SameEntry(code, a[0], b[0]);
      assert SameStack(code, a[1..], b[1..]);
      if a[0].Return? {
        SameFail(code, a[1..], b[1..], caps);
      }
    }
  }

  /** Instruction d at b acts as c at a does: same operation, labels that meet. */
  ghost predicate ActsAs(code: Code, a: int, c: Instr, b: int, d: Instr) {
    (c == d && a == b) ||
    (c == d && Ending(c)) ||
    (Labelled(c) && Labelled(d) && d == Relabel(c, d.off) && Meet(code, a + c.off, b + d.off) &&
     (a == b || Committing(c)))
  }

  lemma TopSame(code: Code, a: seq<Entry>, b: seq<Entry>)
    requires SameStack(code, a, b) && |a| > 0
    ensures SameEntry(code, a[0], b[0]) && SameStack(code, a[1..], b[1..])
  {
  }

  lemma PushSame(code: Code, a: seq<Entry>, b: seq<Entry>, x: Entry, y: Entry)
    requires SameStack(code, a, b) && SameEntry(code, x, y)
    ensures SameStack(code, [x] + a, [y] + b)
  {
  }

  lemma StepSame(code: Code, code': Code, s: Subject, st: State, st': State)
    requires st.Run? && st'.Run? && st.pos == st'.pos && st.caps == st'.caps && SameStack(code, st.stack, st'.stack)
    requires 0 <= st.pc < |code| && 0 <= st'.pc < |code'| && !code[st.pc].IJmp?
    requires ActsAs(code, st.pc, code[st.pc], st'.pc, code'[st'.pc])
    ensures SameState(code, Step(code, s, st), Step(code', s, st'))
  {
    hide Meet, SameStack, FailTo;
    var c, d, a, b := code[st.pc], code'[st'.pc], st.stack, st'.stack;
    assert |a| == |b| by { LengthSame(code, a, b); }
    SameFail(code, a, b, st.caps);
    if |a| > 0 {
      TopSame(code, a, b);
      SameFail(code, a[1..], b[1..], st.caps);
    }
    if Labelled(c) {
      StepSameLabel(code, code', s, st, st');
    } else {
      var r := Step(code, s, st);
      if r.Run? {
        MeetSelf(code, r.pc);
      }
    }
  }

  lemma LengthSame(code: Code, a: seq<Entry>, b: seq<Entry>)
    requires SameStack(code, a, b)
    ensures |a| == |b|
  {
  }

  lemma StepSameLabel(code: Code, code': Code, s: Subject, st: State, st': State)
    requires st.Run? && st'.Run? && st.pos == st'.pos && st.caps == st'.caps && SameStack(code, st.stack, st'.stack)
    requires 0 <= st.pc < |code| && 0 <= st'.pc < |code'| && Labelled(code[st.pc])
    requires ActsAs(code, st.pc, code[st.pc], st'.pc, code'[st'.pc])
    ensures SameState(code, Step(code, s, st), Step(code', s, st'))
  {
    hide Meet, SameStack, FailTo;
    var c, d, a, b := code[st.pc], code'[st'.pc], st.stack, st'.stack;
    LengthSame(code, a, b);
    var target, target' := st.pc + c.off, st'.pc + d.off;
    MeetSelf(code, st.pc + 2);
    MeetSelf(code, target);
    if c.ITestSet? {
      MeetSelf(code, st.pc + 2 + c.cs.slots);
    }
    if c.ICall? {
      PushSame(code, a, b, Return(st.pc + 2), Return(st'.pc + 2));
    } else if c.IChoice? {
      PushSame(code, a, b, Choice(target, st.pos, |st.caps|), Choice(target', st.pos, |st.caps|));
    } else if |a| > 0 {
      TopSame(code, a, b);
      PushSame(code, a[1..], b[1..], Choice(a[0].pc, st.pos, |st.caps|), Choice(b[0].pc, st.pos, |st.caps|));
    }
  }

  // ---- one rewriting

  /** Slot i is an instruction; the second slot of a jump is its own. */
  ghost predicate Boundary(code: Code, i: nat) {
    i < |code| && (code[i].IJmp? && i + 1 < |code| ==> code[i + 1] == ISlot)
  }

  lemma {:induction false} ChainEnd(code: Code, q: int, bound: nat, m: nat)
    requires FinalTarget(code, q, bound) >= 0
    requires var a := Chain(code, q, m); !(0 <= a < |code| && code[a].IJmp?)
    ensures Chain(code, q, m) == FinalTarget(code, q, bound)
    decreases bound
  {
    if code[q].IJmp? {
      ChainEnd(code, q + code[q].off, bound - 1, m - 1);
    }
  }

  lemma ActsAsBefore(code: Code, i: nat, a: int)
    requires Boundary(code, i) && 0 <= a < |code| && !code[a].IJmp? && code[a] != ISlot
    ensures ActsAs(code, a, code[a], a, Optimize(code, i)[a])
  {
    if a == i && Labelled(code[i]) && Target(code, i + code[i].off) >= 0 {
      TargetMeets(code, i + code[i].off);
    }
  }

  lemma ActsAsTarget(code: Code, i: nat)
    requires Boundary(code, i) && code[i].IJmp? && Target(code, i) >= 0
    ensures var a := Target(code, i);
      var c := Optimize(code, i)[i];
      c == code[i] || c == IJmp(a - i) || ActsAs(code, a, code[a], i, c)
  {
    var a := Target(code, i);
    if Committing(code[a]) && Target(code, a + code[a].off) >= 0 {
      TargetMeets(code, a + code[a].off);
    }
  }

  /** The rewritten code catches up with st, which is at the end of the jumps from st'. */
  lemma {:induction false} Follow(code: Code, i: nat, s: Subject, st: State, st': State, m: nat, n: nat, out: Outcome)
    requires Boundary(code, i) && st.Run? && st'.Run? && n > 0 && Steps(code, s, st, n) == Halt(out)
    requires st.pos == st'.pos && st.caps == st'.caps && SameStack(code, st.stack, st'.stack)
    requires Chain(code, st'.pc, m) == st.pc && !(0 <= st.pc < |code| && code[st.pc].IJmp?)
    ensures Halts(Optimize(code, i), s, st', out)
    decreases n, 0, m, 1
  {
    hide SameStack, Halts, FinalTarget;
    var code' := Optimize(code, i);
    var a, b := st.pc, st'.pc;
    if !Step(code, s, st).Run? {
      StepsStay(code, s, Step(code, s, st), n - 1);
    }
    LengthSame(code, st.stack, st'.stack);
    if !(0 <= a < |code|) {
      assert Step(code, s, st) == Halt(out);
      HaltsNow(code', s, out);
      if a == b {
        assert Step(code', s, st') == Halt(out);
        HaltsBefore(code', s, st', out);
      } else {
        FollowJump(code, i, s, st, st', m, n, out);
      }
    } else if a == b {
      ActsAsBefore(code, i, a);
      StepSame(code, code', s, st, st');
      Simulate(code, i, s, Step(code, s, st), Step(code', s, st'), n - 1, out);
      HaltsBefore(code', s, st', out);
    } else {
      FollowJump(code, i, s, st, st', m, n, out);
    }
  }

  lemma {:induction false} FollowJump(code: Code, i: nat, s: Subject, st: State, st': State, m: nat, n: nat, out: Outcome)
    requires Boundary(code, i) && st.Run? && st'.Run? && n > 0 && Steps(code, s, st, n) == Halt(out)
    requires st.pos == st'.pos <= |s| && st.caps == st'.caps && SameStack(code, st.stack, st'.stack)
    requires Chain(code, st'.pc, m) == st.pc && !(0 <= st.pc < |code| && code[st.pc].IJmp?)
    requires st.pc != st'.pc
    ensures Halts(Optimize(code, i), s, st', out)
    decreases n, 0, m, 0
  {
    hide SameStack, Halts, FinalTarget, Steps;
    var code' := Optimize(code, i);
    var a, b := st.pc, st'.pc;
    if code'[b] == code[b] {
      Follow(code, i, s, st, Step(code', s, st'), m - 1, n, out);
      HaltsBefore(code', s, st', out);
    } else {
      assert b == i;
      ChainEnd(code, i, |code|, m);
      ActsAsTarget(code, i);
      if code'[i] == IJmp(a - i) {
        Follow(code, i, s, st, Step(code', s, st'), 0, n, out);
      } else {
        StepSame(code, code', s, st, st');
        assert Steps(code, s, st, n) == Steps(code, s, Step(code, s, st), n - 1) by { StepsUnfold(code, s, st, n); }
        Simulate(code, i, s, Step(code, s, st), Step(code', s, st'), n - 1, out);
      }
      HaltsBefore(code', s, st', out);
    }
  }

  lemma StepsUnfold(code: Code, s: Subject, st: State, n: nat)
    requires n > 0
    ensures Steps(code, s, st, n) == Steps(code, s, Step(code, s, st), n - 1)
  {
  }

  lemma {:induction false} Simulate(code: Code, i: nat, s: Subject, st: State, st': State, n: nat, out: Outcome)
    requires Boundary(code, i) && SameState(code, st, st') && Steps(code, s, st, n) == Halt(out)
    ensures Halts(Optimize(code, i), s, st', out)
    decreases n, 1, 0, 0
  {
    hide SameStack, Halts;
    if !st.Run? {
      StepsStay(code, s, st, n);
      HaltsNow(Optimize(code, i), s, out);
    } else {
      assert n > 0;
      var j: nat, m: nat :| Chain(code, st.pc, j) == Chain(code, st'.pc, m);
      if 0 <= st.pc < |code| && code[st.pc].IJmp? {
        MeetJump(code, st.pc, st'.pc);
        StepsStay(code, s, Stuck, n - 1);
        Simulate(code, i, s, Step(code, s, st), st', n - 1, out);
      } else {
        Follow(code, i, s, st, st', m, n, out);
      }
    }
  }

  /** One rewriting leaves every outcome as it was. */
  lemma OptimizeSound(code: Code, i: nat, s: Subject, pos: nat, out: Outcome)
    requires Boundary(code, i) && Halts(code, s, Start(pos), out)
    ensures Halts(Optimize(code, i), s, Start(pos), out)
  {
    var n: nat :| Steps(code, s, Start(pos), n) == Halt(out);
    MeetSelf(code, 0);
    MeetSelf(code, GIVEUP);
    Simulate(code, i, s, Start(pos), Start(pos), n, out);
  }

  /** A rewritten slot is as large as before, or the end of a jump that became one instruction and a filler. */
  lemma OptimizeShape(code: Code, i: nat)
    requires i < |code|
    ensures var next := Optimize(code, i);
      (Size(next[i]) == Size(code[i]) && forall k :: 0 <= k < |code| && k != i ==> next[k] == code[k])
      || (code[i].IJmp? && Size(next[i]) == 1 && (i + 1 < |code| ==> next[i + 1] == IEmpty)
          && forall k :: 0 <= k < |code| && k != i && k != i + 1 ==> next[k] == code[k])
  {
    hide FinalTarget;
  }

  lemma OptimizeWhole(code: Code, i: nat)
    requires i < |code| && Whole(code, i)
    ensures Boundary(code, i)
    ensures var next := Optimize(code, i); Whole(next, i + Size(next[i]))
  {
    OptimizeShape(code, i);
    hide Optimize;
    var next := Optimize(code, i);
    assert code[i].IJmp? ==> i < i + 1 < i + Size(code[i]);
    WholeElsewhere(code, next, i + Size(code[i]));
    if Size(next[i]) != Size(code[i]) {
      assert next[i + 1] == IEmpty && Whole(next, i + 1 + Size(next[i + 1]));
    }
  }

  /** peephole preserves meaning: whatever the code does to a subject, the rewritten code does. */
  lemma {:induction false} PeepholeSound(code: Code, i: nat, s: Subject, pos: nat, out: Outcome)
    requires Whole(code, i) && Halts(code, s, Start(pos), out)
    ensures Halts(Optimized(code, i), s, Start(pos), out)
    decreases |code| - i
  {
    hide Halts, Optimize;
    if i < |code| {
      OptimizeWhole(code, i);
      OptimizeSound(code, i, s, pos, out);
      var next := Optimize(code, i);
      PeepholeSound(next, i + Size(next[i]), s, pos, out);
    }
  }

  // ---- rewriting adds no violation

  ghost predicate StuckFree(code: Code, s: Subject, st: State) { forall k: nat :: Steps(code, s, st, k) != Stuck }

  lemma StepStuckFree(code: Code, s: Subject, st: State)
    requires StuckFree(code, s, st)
    ensures StuckFree(code, s, Step(code, s, st)) && Step(code, s, st) != Stuck
  {
    forall k: nat ensures Steps(code, s, Step(code, s, st), k) != Stuck {
      assert Steps(code, s, st, k + 1) != Stuck;
    }
    assert Steps(code, s, Step(code, s, st), 0) != Stuck;
  }

  ghost predicate IsJump(code: Code, q: int) { 0 <= q < |code| && code[q].IJmp? }

  /** Where the jumps from b end, the jumps from an address that meets b end. */
  lemma {:induction false} EndReached(code: Code, a: int, b: int, k: nat) returns (m: nat)
    requires Meet(code, a, b) && !IsJump(code, Chain(code, b, k))
    ensures Chain(code, a, m) == Chain(code, b, k)
    decreases k
  {
    if IsJump(code, b) {
      MeetSym(code, a, b);
      MeetJump(code, b, a);
      MeetSym(code, b + code[b].off, a);
      m := EndReached(code, a, b + code[b].off, k - 1);
    } else {
      var n: nat, j: nat :| Chain(code, a, n) == Chain(code, b, j);
      m := n;
    }
  }

  lemma MeetSym(code: Code, a: int, b: int)
    requires Meet(code, a, b)
    ensures Meet(code, b, a)
  {
    var n: nat, m: nat :| Chain(code, a, n) == Chain(code, b, m);
    assert Chain(code, b, m) == Chain(code, a, n);
  }

  /** Both are at the same instruction. */
  lemma SameStep(code: Code, i: nat, s: Subject, st: State, st': State)
    requires Boundary(code, i) && st.Run? && st'.Run? && StuckFree(code, s, st)
    requires SameState(code, st, st') && !IsJump(code, st.pc) && st.pc == st'.pc
    ensures SameState(code, Step(code, s, st), Step(Optimize(code, i), s, st'))
  {
    StepStuckFree(code, s, st);
    hide StuckFree, SameStack, Optimize;
    LengthSame(code, st.stack, st'.stack);
    if 0 <= st.pc < |code| {
      ActsAsBefore(code, i, st.pc);
      StepSame(code, Optimize(code, i), s, st, st');
    }
  }

  /** The rewritten code is at a jump that leads to where st is. */
  lemma JumpStep(code: Code, i: nat, s: Subject, st: State, st': State)
    requires Boundary(code, i) && st.Run? && st'.Run? && StuckFree(code, s, st)
    requires SameState(code, st, st') && !IsJump(code, st.pc) && st.pc != st'.pc
    ensures SameState(code, st, Step(Optimize(code, i), s, st'))
            || SameState(code, Step(code, s, st), Step(Optimize(code, i), s, st'))
  {
    StepStuckFree(code, s, st);
    hide StuckFree, SameStack, FinalTarget;
    var code' := Optimize(code, i);
    var a, b := st.pc, st'.pc;
    var j: nat, m: nat :| Chain(code, a, j) == Chain(code, b, m);
    assert IsJump(code, b) && m > 0;
    if code'[b] == code[b] {
      assert Chain(code, a, 0) == Chain(code, b + code[b].off, m - 1);
    } else {
      ChainEnd(code, i, |code|, m);
      ActsAsTarget(code, i);
      if code'[i] == IJmp(a - i) {
        MeetSelf(code, a);
      } else {
        StepSame(code, code', s, st, st');
      }
    }
  }

  /** st is past its jumps; the rewritten code takes one step. */
  lemma {:induction false} FollowSafe(code: Code, i: nat, s: Subject, st: State, st': State, n: nat)
    requires Boundary(code, i) && st.Run? && st'.Run? && StuckFree(code, s, st) && n > 0
    requires SameState(code, st, st') && !IsJump(code, st.pc)
    ensures Steps(Optimize(code, i), s, st', n) != Stuck
    decreases n, 0, 0
  {
    hide StuckFree, SameState, Optimize, Step;
    var next, next' := Step(code, s, st), Step(Optimize(code, i), s, st');
    StepStuckFree(code, s, st);
    if st.pc == st'.pc {
      SameStep(code, i, s, st, st');
    } else {
      JumpStep(code, i, s, st, st');
    }
    SimulateSafe(code, i, s, if SameState(code, next, next') then next else st, next', n - 1);
  }

  /** st jumps for ever, and so does the rewritten code. */
  lemma {:induction false} CircleSafe(code: Code, i: nat, s: Subject, st: State, st': State, n: nat)
    requires Boundary(code, i) && st.Run? && st'.Run? && StuckFree(code, s, st) && n > 0
    requires SameState(code, st, st') && forall m: nat :: IsJump(code, Chain(code, st.pc, m))
    ensures Steps(Optimize(code, i), s, st', n) != Stuck
    decreases n, 0, 0
  {
    hide StuckFree, SameStack, FinalTarget;
    var code' := Optimize(code, i);
    var b := st'.pc;
    StepStuckFree(code, s, st);
    assert IsJump(code, Chain(code, st.pc, 0));
    if !IsJump(code, b) {
      var m := EndReached(code, st.pc, b, 0);
      assert false;
    }
    if b == i && Target(code, b) >= 0 {
      TargetChain(code, b, |code|);
      var m := EndReached(code, st.pc, b, |code|);
      assert false;
    }
    MeetSym(code, st.pc, b);
    MeetJump(code, b, st.pc);
    MeetSym(code, b + code[b].off, st.pc);
    SimulateSafe(code, i, s, st, Step(code', s, st'), n - 1);
  }

  lemma {:induction false} AdvanceSafe(code: Code, i: nat, s: Subject, st: State, st': State, n: nat, m: nat)
    requires Boundary(code, i) && st.Run? && st'.Run? && StuckFree(code, s, st) && n > 0
    requires SameState(code, st, st') && !IsJump(code, Chain(code, st.pc, m))
    ensures Steps(Optimize(code, i), s, st', n) != Stuck
    decreases n, 1, m
  {
    hide StuckFree, SameStack;
    if IsJump(code, st.pc) {
      StepStuckFree(code, s, st);
      MeetJump(code, st.pc, st'.pc);
      AdvanceSafe(code, i, s, Step(code, s, st), st', n, m - 1);
    } else {
      FollowSafe(code, i, s, st, st', n);
    }
  }

  lemma {:induction false} SimulateSafe(code: Code, i: nat, s: Subject, st: State, st': State, n: nat)
    requires Boundary(code, i) && SameState(code, st, st') && StuckFree(code, s, st)
    ensures Steps(Optimize(code, i), s, st', n) != Stuck
    decreases n, 2, 0
  {
    assert Steps(code, s, st, 0) != Stuck;
    hide StuckFree, SameStack;
    if !st.Run? {
      StepsStay(Optimize(code, i), s, st', n);
    } else if n > 0 {
      if m: nat :| !IsJump(code, Chain(code, st.pc, m)) {
        AdvanceSafe(code, i, s, st, st', n, m);
      } else {
        CircleSafe(code, i, s, st, st', n);
      }
    }
  }

  /** Code that is never stuck is not stuck after the whole pass either. */
  lemma {:induction false} PeepholeSafe(code: Code, i: nat, s: Subject, pos: nat)
    requires Whole(code, i) && StuckFree(code, s, Start(pos))
    ensures StuckFree(Optimized(code, i), s, Start(pos))
    decreases |code| - i
  {
    if i < |code| {
      OptimizeWhole(code, i);
      var next := Optimize(code, i);
      MeetSelf(code, 0);
      MeetSelf(code, GIVEUP);
      forall n: nat ensures Steps(next, s, Start(pos), n) != Stuck {
        SimulateSafe(code, i, s, Start(pos), Start(pos), n);
      }
      PeepholeSafe(next, i + Size(next[i]), s, pos);
    }
  }
}
