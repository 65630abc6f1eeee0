/**
 Where the labels of generated code point: every one at the start of an instruction of the
 same pattern, or just behind its code.
 */
module Labels {
  import opened Charsets
  import opened Analysis
  import opened Semantics
  import opened Machine
  import opened CodeGen
  import opened Placement

  /** Walking over whole instructions from slot i comes to slot k, an instruction or the end. */
  ghost predicate Starts(c: Code, i: int, k: int)
    decreases |c| - i
  {
    0 <= i <= |c| && (i == k || (i < |c| && Starts(c, i + Size(c[i]), k)))
  }

  /** The labels of c, which sits at base in whole, point at starts of whole. */
  ghost predicate LabelsIn(c: Code, base: int, whole: Code) {
    forall k :: 0 <= k < |c| && HasOffset(c[k]) ==> Starts(whole, 0, base + k + c[k].off)
  }

  ghost predicate Inside(c: Code) { LabelsIn(c, 0, c) }

  lemma {:induction false} StartsTrans(c: Code, i: int, j: int, k: int)
    requires Starts(c, i, j) && Starts(c, j, k)
    ensures Starts(c, i, k)
    decreases |c| - i
  {
    if i != j {
      StartsTrans(c, i + Size(c[i]), j, k);
    }
  }

  lemma {:induction false} StartsPrefix(a: Code, b: Code, i: int, k: int)
    requires Starts(a, i, k)
    ensures Starts(a + b, i, k)
    decreases |a| - i
  {
    if i != k {
      StartsPrefix(a, b, i + Size(a[i]), k);
    }
  }

  lemma {:induction false} StartsShift(a: Code, b: Code, i: int, k: int)
    requires Starts(b, i, k)
    ensures Starts(a + b, |a| + i, |a| + k)
    decreases |b| - i
  {
    if i != k {
      StartsShift(a, b, i + Size(b[i]), k);
    }
  }

  lemma {:induction false} WholeStarts(a: Code, i: nat)
    requires Whole(a, i)
    ensures Starts(a, i, |a|)
    decreases |a| - i
  {
    if i < |a| {
      WholeStarts(a, i + Size(a[i]));
    }
  }

  lemma StartsWithin(a: Code, m: Code, b: Code, k: int)
    requires Whole(a, 0) && Starts(m, 0, k)
    ensures Starts(a + m + b, 0, |a| + k)
  {
    WholeStarts(a, 0);
    hide Starts, Whole;
    StartsPrefix(a, m, 0, |a|);
    StartsShift(a, m, 0, k);
    StartsTrans(a + m, 0, |a|, |a| + k);
    StartsPrefix(a + m, b, 0, |a| + k);
  }

  /** Code whose labels are inside keeps them inside when it becomes part of other code. */
  lemma Embed(a: Code, m: Code, b: Code, w: Code)
    requires Whole(a, 0) && Inside(m) && w == a + m + b
    ensures LabelsIn(m, |a|, w)
  {
    hide Starts, Whole;
    forall k | 0 <= k < |m| && HasOffset(m[k]) ensures Starts(w, 0, |a| + k + m[k].off) {
      StartsWithin(a, m, b, k + m[k].off);
    }
  }

  lemma LabelsAppend(a: Code, b: Code, base: int, whole: Code)
    requires LabelsIn(a, base, whole) && LabelsIn(b, base + |a|, whole)
    ensures LabelsIn(a + b, base, whole)
  {
    hide Starts;
    var c := a + b;
    forall k | 0 <= k < |c| && HasOffset(c[k]) ensures Starts(whole, 0, base + k + c[k].off) {
      if k >= |a| {
        assert c[k] == b[k - |a|] && base + |a| + (k - |a|) == base + k;
      }
    }
  }

  /** A piece with at most one label, its own. */
  lemma LabelFirst(c: Code, base: int, whole: Code)
    requires forall k :: 0 < k < |c| ==> !HasOffset(c[k])
    requires |c| > 0 && HasOffset(c[0]) ==> Starts(whole, 0, base + c[0].off)
    ensures LabelsIn(c, base, whole)
  {
  }

  lemma LabelTest(cs: Charset, off: int, base: int, whole: Code)
    requires Starts(whole, 0, base + off)
    ensures LabelsIn(TestCode(cs, off), base, whole)
  {
    hide Starts;
    LabelFirst(TestCode(cs, off), base, whole);
  }

  lemma LabelGuard(f: First, off: int, base: int, whole: Code)
    requires !f.empty ==> Starts(whole, 0, base + off)
    ensures LabelsIn(Guard(f, off), base, whole)
  {
    hide Starts;
    if !f.empty {
      LabelTest(f.set_, off, base, whole);
    }
  }

  lemma WholeJump(i: Instr)
    requires Size(i) == 2
    ensures Whole([i, ISlot], 0)
  {
    WholeOne(i, [i, ISlot]);
  }

  lemma WholeGuard(f: First, off: nat)
    ensures Whole(Guard(f, off), 0)
  {
    FineGuard(f, off, 0);
  }

  /** More whole instructions: the starts stay, and the new end is one. */
  lemma Grow(a: Code, b: Code, w: Code)
    requires Whole(a, 0) && Whole(b, 0) && w == a + b
    ensures Whole(w, 0) && Starts(w, 0, |w|) && forall k :: Starts(a, 0, k) ==> Starts(w, 0, k)
  {
    WholeAppend(a, b, 0);
    WholeStarts(w, 0);
    forall k | Starts(a, 0, k) ensures Starts(w, 0, k) {
      StartsPrefix(a, b, 0, k);
    }
  }

  /** Five pieces: where each begins is a start. */
  lemma FiveStarts(a: Code, b: Code, c: Code, d: Code, e: Code)
    requires Whole(a, 0) && Whole(b, 0) && Whole(c, 0) && Whole(d, 0) && Whole(e, 0)
    ensures var w := a + b + c + d + e;
      && Starts(w, 0, 0) && Starts(w, 0, |a|) && Starts(w, 0, |a| + |b|) && Starts(w, 0, |a| + |b| + |c|)
      && Starts(w, 0, |a| + |b| + |c| + |d|) && Starts(w, 0, |w|)
  {
    assert Starts(a, 0, 0);
    WholeStarts(a, 0);
    hide Starts, Whole;
    Grow(a, b, a + b);
    Grow(a + b, c, a + b + c);
    Grow(a + b + c, d, a + b + c + d);
    Grow(a + b + c + d, e, a + b + c + d + e);
  }

  lemma EmbedLast(a: Code, b: Code, w: Code)
    requires w == a + b && Whole(a, 0) && Inside(b)
    ensures LabelsIn(b, |a|, w)
  {
    hide Inside, Whole, LabelsIn;
    assert a + b + [] == w;
    Embed(a, b, [], w);
  }

  lemma InsideAppend(a: Code, b: Code)
    requires Whole(a, 0) && Inside(a) && Inside(b)
    ensures Inside(a + b)
  {
    hide Starts, Whole;
    WholeNone();
    assert [] + a + b == a + b;
    Embed([], a, b, a + b);
    EmbedLast(a, b, a + b);
    LabelsAppend(a, b, 0, a + b);
  }

  lemma InsidePlain(c: Code)
    requires forall k :: 0 <= k < |c| ==> !HasOffset(c[k])
    ensures Inside(c)
  {
  }

  /** Glue around two pieces of code: all labels stay inside when the glue's own do. */
  lemma FiveInside(a: Code, b: Code, c: Code, d: Code, e: Code, w: Code)
    requires w == a + b + c + d + e && Whole(a, 0) && Whole(b, 0) && Whole(c, 0) && Whole(d, 0) && Whole(e, 0)
    requires Inside(c) && Inside(e)
    requires LabelsIn(a, 0, w) && LabelsIn(b, |a|, w) && LabelsIn(d, |a| + |b| + |c|, w)
    ensures Inside(w)
  {
    hide LabelsIn, Whole, Starts, Inside;
    FourWhole(a, b, c, d);
    Tail(a + b + c, d, e, w);
    PrefixesInside(a, b, c, d, e, a + b, a + b + c, a + b + c + d, d + e, w);
  }

  /** The same with a name for every prefix. */
  lemma PrefixesInside(a: Code, b: Code, c: Code, d: Code, e: Code, ab: Code, abc: Code, abcd: Code, de: Code, w: Code)
    requires ab == a + b && abc == ab + c && abcd == abc + d && w == abcd + e && w == abc + de
    requires Whole(ab, 0) && Whole(abcd, 0) && Inside(c) && Inside(e)
    requires LabelsIn(a, 0, w) && LabelsIn(b, |a|, w) && LabelsIn(d, |a| + |b| + |c|, w)
    ensures Inside(w)
  {
    Embed(ab, c, de, w);
    EmbedLast(abcd, e, w);
    hide LabelsIn, Whole;
    LabelsAppend(a, b, 0, w);
    LabelsAppend(ab, c, 0, w);
    LabelsAppend(abc, d, 0, w);
    LabelsAppend(abcd, e, 0, w);
  }

  lemma Tail(front: Code, d: Code, e: Code, w: Code)
    requires w == front + d + e
    ensures w == front + (d + e)
  {
  }

  lemma FourWhole(a: Code, b: Code, c: Code, d: Code)
    requires Whole(a, 0) && Whole(b, 0) && Whole(c, 0) && Whole(d, 0)
    ensures Whole(a + b, 0) && Whole(a + b + c + d, 0)
  {
    hide Whole;
    WholeAppend(a, b, 0);
    WholeAppend(a + b, c, 0);
    WholeAppend(a + b + c, d, 0);
  }

  lemma WholeNone()
    ensures Whole([], 0) && Inside([])
  {
  }

  lemma InsideTestedChoice(cs: Charset, c1: Code, c2: Code, p2: Tree)
    requires Whole(c1, 0) && Whole(c2, 0) && Inside(c1) && Inside(c2) && (p2.TTrue? ==> c2 == [])
    ensures Inside(TestedChoice(cs, c1, c2, p2))
  {
    hide Starts, Whole, TestCode, Inside, TestSize;
    var jmp := JumpOver(c2, p2);
    var off := TestSize(cs) + |c1| + |jmp|;
    var test, w := TestCode(cs, off), TestedChoice(cs, c1, c2, p2);
    WholeTest(cs, off);
    WholeNone();
    if !p2.TTrue? {
      WholeJump(IJmp(|c2| + 2));
    }
    assert w == test + [] + c1 + jmp + c2;
    FiveStarts(test, [], c1, jmp, c2);
    LabelTest(cs, off, 0, w);
    LabelFirst(jmp, |test| + |c1|, w);
    FiveInside(test, [], c1, jmp, c2, w);
  }

  lemma InsideStackedChoice(f: First, c1: Code, c2: Code)
    requires Whole(c1, 0) && Whole(c2, 0) && Inside(c1) && Inside(c2)
    ensures Inside(StackedChoice(f, c1, c2))
  {
    hide Starts, Whole, Guard, Inside;
    var off := GuardSize(f) + |c1| + 4;
    var guard, choice, commit := Guard(f, off), [IChoice(|c1| + 4), ISlot], [ICommit(|c2| + 2), ISlot];
    var w := StackedChoice(f, c1, c2);
    WholeGuard(f, off);
    WholeJump(choice[0]);
    WholeJump(commit[0]);
    assert |guard| == GuardSize(f);
    FiveStarts(guard, choice, c1, commit, c2);
    LabelGuard(f, off, 0, w);
    LabelFirst(choice, |guard|, w);
    LabelFirst(commit, |guard| + 2 + |c1|, w);
    FiveInside(guard, choice, c1, commit, c2, w);
  }

  lemma InsideTestedLoop(cs: Charset, c: Code)
    requires Whole(c, 0) && Inside(c)
    ensures Inside(TestedLoop(cs, c))
  {
    hide Starts, Whole, TestCode, Inside, TestSize;
    var n := TestSize(cs) + |c|;
    var test, jmp, w := TestCode(cs, n + 2), [IJmp(-n), ISlot], TestedLoop(cs, c);
    WholeTest(cs, n + 2);
    WholeNone();
    WholeJump(jmp[0]);
    assert w == test + [] + c + jmp + [];
    FiveStarts(test, [], c, jmp, []);
    LabelTest(cs, n + 2, 0, w);
    LabelFirst(jmp, n, w);
    FiveInside(test, [], c, jmp, [], w);
  }

  lemma InsideStackedLoop(f: First, c: Code, opt: bool)
    requires Whole(c, 0) && Inside(c)
    ensures Inside(StackedLoop(f, c, opt))
  {
    hide Starts, Whole, Guard, Inside;
    var off := GuardSize(f) + |c| + 4;
    var guard, w := Guard(f, off), StackedLoop(f, c, opt);
    var choice, commit := [if opt then IPartialCommit(2) else IChoice(|c| + 4), ISlot], [IPartialCommit(-|c|), ISlot];
    WholeGuard(f, off);
    WholeNone();
    WholeJump(choice[0]);
    WholeJump(commit[0]);
    assert |guard| == GuardSize(f);
    assert w == guard + choice + c + commit + [];
    FiveStarts(guard, choice, c, commit, []);
    LabelGuard(f, off, 0, w);
    LabelFirst(choice, |guard|, w);
    LabelFirst(commit, |guard| + 2 + |c|, w);
    FiveInside(guard, choice, c, commit, [], w);
  }

  lemma InsideStackedNot(f: First, c: Code)
    requires Whole(c, 0) && Inside(c)
    ensures Inside(StackedNot(f, c))
  {
    hide Starts, Whole, Guard, Inside;
    var off := GuardSize(f) + |c| + 3;
    var guard, choice, w := Guard(f, off), [IChoice(|c| + 3), ISlot], StackedNot(f, c);
    WholeGuard(f, off);
    WholeNone();
    WholeJump(choice[0]);
    WholeOne(IFailTwice, [IFailTwice]);
    assert |guard| == GuardSize(f);
    assert w == guard + choice + c + [IFailTwice] + [];
    FiveStarts(guard, choice, c, [IFailTwice], []);
    LabelGuard(f, off, 0, w);
    LabelFirst(choice, |guard|, w);
    LabelFirst([IFailTwice], |guard| + 2 + |c|, w);
    FiveInside(guard, choice, c, [IFailTwice], [], w);
  }

  lemma InsideTestedNot(f: First)
    ensures Inside(TestedNot(f))
  {
    hide Starts, Whole, Guard, Inside;
    var off := GuardSize(f) + 1;
    var guard, w := Guard(f, off), TestedNot(f);
    WholeGuard(f, off);
    WholeNone();
    WholeOne(IFail, [IFail]);
    assert |guard| == GuardSize(f);
    assert w == guard + [IFail] + [] + [] + [];
    FiveStarts(guard, [IFail], [], [], []);
    LabelGuard(f, off, 0, w);
    LabelFirst([IFail], |guard|, w);
    LabelFirst([], |guard| + 1, w);
    FiveInside(guard, [IFail], [], [], [], w);
  }

  lemma InsideStackedAnd(c: Code)
    requires Whole(c, 0) && Inside(c)
    ensures Inside(StackedAnd(c))
  {
    hide Starts, Whole, Inside;
    var choice, commit, w := [IChoice(|c| + 4), ISlot], [IBackCommit(3), ISlot], StackedAnd(c);
    WholeNone();
    WholeJump(choice[0]);
    WholeJump(commit[0]);
    WholeOne(IFail, [IFail]);
    InsidePlain([IFail]);
    assert w == [] + choice + c + commit + [IFail];
    FiveStarts([], choice, c, commit, [IFail]);
    LabelFirst([], 0, w);
    LabelFirst(choice, 0, w);
    LabelFirst(commit, 2 + |c|, w);
    FiveInside([], choice, c, commit, [IFail], w);
  }

  /** A jump to just behind itself before code. */
  lemma InsideNext(i: Instr, c: Code)
    requires Whole(c, 0) && Inside(c) && Size(i) == 2 && HasOffset(i) && i.off == 2
    ensures Inside([i, ISlot] + c)
  {
    WholeJump(i);
    assert Starts([i, ISlot], 0, 2);
    InsideAppend([i, ISlot], c);
  }

  lemma InsideRepCharset(p: Tree)
    requires IsCharset(p)
    ensures Inside(RepCharset(p))
  {
    var c := RepCharset(p);
    if p.TAny? || p.TChar? {
      assert Starts(c, 5, 5) && Starts(c, 3, 5) && Starts(c, 2, 5) && Starts(c, 0, 5);
    }
  }

  // ---- closed calls

  lemma {:induction false} StartsClosed(body: Code, closed: Code, ps: seq<nat>, i: int, k: int)
    requires forall j :: 0 <= j < |body| ==> Closed(body, closed, ps, j)
    requires |closed| == |body| && Starts(body, i, k)
    ensures Starts(closed, i, k)
    decreases |body| - i
  {
    if i != k {
      assert Closed(body, closed, ps, i);
      StartsClosed(body, closed, ps, i + Size(body[i]), k);
    }
  }

  lemma InsideClosed(body: Code, closed: Code, ps: seq<nat>)
    requires |closed| == |body| && forall j :: 0 <= j < |body| ==> Closed(body, closed, ps, j)
    requires Inside(body) && forall n :: 0 <= n < |ps| ==> Starts(body, 0, ps[n])
    ensures Inside(closed)
  {
    forall k | 0 <= k < |closed| && HasOffset(closed[k]) ensures Starts(closed, 0, k + closed[k].off) {
      assert Closed(body, closed, ps, k);
      StartsClosed(body, closed, ps, 0, k + closed[k].off);
    }
  }

  /** Every rule of a grammar begins at a start of its code. */
  lemma {:induction false} PositionsStart(rules: Grammar, d: nat, t: Tree, n: nat, k: nat)
    requires t == TGrammar(rules) && Resolved(0, t) && n <= k <= |rules|
    ensures Starts(GenRules(rules, d, t, k), 0, |GenRules(rules, d, t, n)|)
    decreases k
  {
    hide Gen;
    if n < k {
      PositionsStart(rules, d, t, n, k - 1);
      var c := Gen(rules, d, rules[k - 1], false, NoTest, FullSet()) + [IRet];
      StartsPrefix(GenRules(rules, d, t, k - 1), c, 0, |GenRules(rules, d, t, n)|);
      assert GenRules(rules, d, t, k - 1) + c == GenRules(rules, d, t, k);
    } else {
      GenRulesFine(rules, d, t, k);
      WholeStarts(GenRules(rules, d, t, k), 0);
    }
  }

  // ---- the generated code

  lemma {:induction false} RulesInside(rules: Grammar, d: nat, t: Tree, k: nat)
    requires t == TGrammar(rules) && Resolved(0, t) && k <= |rules|
    ensures Inside(GenRules(rules, d, t, k))
    decreases t, 0, k
  {
    hide Gen, Inside, Whole;
    if k == 0 {
      WholeNone();
    } else {
      var c := Gen(rules, d, rules[k - 1], false, NoTest, FullSet());
      RulesInside(rules, d, t, k - 1);
      GenInside(rules, d, rules[k - 1], false, NoTest, FullSet(), |rules|);
      GenRulesFine(rules, d, t, k - 1);
      GenFine(rules, d, rules[k - 1], false, NoTest, FullSet(), |rules|);
      InsideAppend(GenRules(rules, d, t, k - 1), c);
      WholeAppend(GenRules(rules, d, t, k - 1), c, 0);
      InsidePlain([IRet]);
      InsideAppend(GenRules(rules, d, t, k - 1) + c, [IRet]);
    }
  }

  lemma {:induction false} GrammarInside(g: Grammar, d: nat, t: Tree, opt: bool, tt: Test, fl: Charset)
    requires t.TGrammar? && Resolved(0, t)
    ensures Inside(Gen(g, d, t, opt, tt, fl))
    decreases t, 0, |t.rules| + 1
  {
    hide Gen, Inside, Whole, Starts, GenRules, CorrectCalls;
    var rules := t.rules;
    var body, ps := GenRules(rules, d, t, |rules|), Positions(rules, d, t);
    var closed := CorrectCalls(body, ps, 0);
    GrammarCode(g, d, t, opt, tt, fl);
    RulesInside(rules, d, t, |rules|);
    GenRulesFine(rules, d, t, |rules|);
    CorrectCallsSound(body, ps, 0);
    CorrectCallsWhole(body, ps, 0, 0);
    forall n | 0 <= n < |ps| ensures Starts(body, 0, ps[n]) {
      PositionsStart(rules, d, t, n, |rules|);
    }
    InsideClosed(body, closed, ps);
    var call, jmp, w := [ICall(4), ISlot], [IJmp(|body| + 2), ISlot], Gen(g, d, t, opt, tt, fl);
    assert w == call + jmp + [] + [] + closed;
    WholeNone();
    WholeJump(call[0]);
    WholeJump(jmp[0]);
    FiveStarts(call, jmp, [], [], closed);
    LabelFirst(call, 0, w);
    LabelFirst(jmp, 2, w);
    LabelFirst([], 4, w);
    FiveInside(call, jmp, [], [], closed, w);
  }

  lemma {:induction false} ChoiceInside(g: Grammar, d: nat, t: Tree, opt: bool, tt: Test, fl: Charset, n: nat)
    requires t.TChoice? && Resolved(n, t)
    ensures Inside(Gen(g, d, t, opt, tt, fl))
    decreases t, 0, 0
  {
    hide Inside, Whole, GetFirst, Guard, TestCode, CheckAux, FixedLen, HasCaptures, Compact, CorrectCalls;
    var p1, p2 := t.p1, t.p2;
    assert Gen(g, d, t, opt, tt, fl) == GenChoice(g, d, p1, p2, opt, fl);
    var f := GetFirst(g, d, p1, FullSet());
    var c2 := Gen(g, d, p2, opt, NoTest, fl);
    GenInside(g, d, p2, opt, NoTest, fl, n);
    GenFine(g, d, p2, opt, NoTest, fl, n);
    if ByTest(g, d, p1, p2, fl) {
      GenInside(g, d, p1, false, TestOf(First(f.set_, false)), fl, n);
      GenFine(g, d, p1, false, TestOf(First(f.set_, false)), fl, n);
      InsideTestedChoice(f.set_, Gen(g, d, p1, false, TestOf(First(f.set_, false)), fl), c2, p2);
    } else if opt && p2.TTrue? {
      GenInside(g, d, p1, true, NoTest, FullSet(), n);
      GenFine(g, d, p1, true, NoTest, FullSet(), n);
      InsideNext(IPartialCommit(2), Gen(g, d, p1, true, NoTest, FullSet()));
    } else {
      GenInside(g, d, p1, p2.TTrue?, TestOf(f), FullSet(), n);
      GenFine(g, d, p1, p2.TTrue?, TestOf(f), FullSet(), n);
      InsideStackedChoice(f, Gen(g, d, p1, p2.TTrue?, TestOf(f), FullSet()), c2);
    }
  }

  lemma {:induction false} RepInside(g: Grammar, d: nat, t: Tree, opt: bool, tt: Test, fl: Charset, n: nat)
    requires t.TRep? && Resolved(n, t)
    ensures Inside(Gen(g, d, t, opt, tt, fl))
    decreases t, 0, 0
  {
    hide Inside, Whole, GetFirst, Guard, TestCode, CheckAux, FixedLen, HasCaptures, Compact, CorrectCalls;
    var p := t.p;
    assert Gen(g, d, t, opt, tt, fl) == GenRep(g, d, p, opt, fl);
    var f := GetFirst(g, d, p, FullSet());
    if IsCharset(p) {
      InsideRepCharset(p);
    } else if RepByTest(g, d, p, fl) {
      GenInside(g, d, p, false, TestOf(First(f.set_, false)), FullSet(), n);
      GenFine(g, d, p, false, TestOf(First(f.set_, false)), FullSet(), n);
      InsideTestedLoop(f.set_, Gen(g, d, p, false, TestOf(First(f.set_, false)), FullSet()));
    } else {
      GenInside(g, d, p, false, NoTest, FullSet(), n);
      GenFine(g, d, p, false, NoTest, FullSet(), n);
      InsideStackedLoop(f, Gen(g, d, p, false, NoTest, FullSet()), opt);
    }
  }

  /** Every label of generated code points at an instruction of that code or just behind it. */
  lemma {:induction false} GenInside(g: Grammar, d: nat, t: Tree, opt: bool, tt: Test, fl: Charset, n: nat)
    requires Resolved(n, t)
    ensures Inside(Gen(g, d, t, opt, tt, fl))
    decreases t, 1, 0
  {
    hide Inside, Whole, GetFirst, TestCode, CheckAux, FixedLen, HasCaptures, Compact, CorrectCalls, GenChoice, GenRep;
    match t
    case TRep(_) => RepInside(g, d, t, opt, tt, fl, n);
    case TChoice(_, _) => ChoiceInside(g, d, t, opt, tt, fl, n);
    case TGrammar(_) => GrammarInside(g, d, t, opt, tt, fl);
    case TSeq(p1, p2) =>
      var f1, t2 := SeqFollow(g, d, p1, p2, fl), SeqTest(g, p1, tt);
      GenInside(g, d, p1, false, tt, f1, n);
      GenInside(g, d, p2, opt, t2, fl, n);
      GenFine(g, d, p1, false, tt, f1, n);
      InsideAppend(Gen(g, d, p1, false, tt, f1), Gen(g, d, p2, opt, t2, fl));
    case TNot(p) =>
      assert Gen(g, d, t, opt, tt, fl) == GenNot(g, d, p);
      GenInside(g, d, p, false, NoTest, FullSet(), n);
      GenFine(g, d, p, false, NoTest, FullSet(), n);
      InsideTestedNot(GetFirst(g, d, p, FullSet()));
      InsideStackedNot(GetFirst(g, d, p, FullSet()), Gen(g, d, p, false, NoTest, FullSet()));
    case TAnd(p) =>
      var c := Gen(g, d, p, false, tt, FullSet());
      GenInside(g, d, p, false, tt, FullSet(), n);
      GenFine(g, d, p, false, tt, FullSet(), n);
      InsideStackedAnd(c);
      InsidePlain(StepBack(FixedLen(g, {}, p)));
      InsideAppend(c, StepBack(FixedLen(g, {}, p)));
    case TBehind(m, p) =>
      GenInside(g, d, p, false, NoTest, FullSet(), n);
      FineStepBack(m, n);
      InsidePlain(StepBack(m));
      InsideAppend(StepBack(m), Gen(g, d, p, false, NoTest, FullSet()));
    case TCapture(kind, p) =>
      var c := Gen(g, d, p, false, tt, fl);
      GenInside(g, d, p, false, tt, fl, n);
      GenFine(g, d, p, false, tt, fl, n);
      CaptureInside(kind, c, FixedLen(g, {}, p));
    case _ => InsidePlain(Gen(g, d, t, opt, tt, fl));
  }

  lemma CaptureInside(kind: nat, c: Code, len: int)
    requires Whole(c, 0) && Inside(c)
    ensures Inside([IOpenCapture(kind)] + c + [ICloseCapture])
    ensures len >= 0 ==> Inside(c + [IFullCapture(kind, len)])
  {
    hide Inside;
    WholeOne(IOpenCapture(kind), [IOpenCapture(kind)]);
    hide Whole;
    InsidePlain([IOpenCapture(kind)]);
    InsidePlain([ICloseCapture]);
    InsideAppend([IOpenCapture(kind)], c);
    WholeAppend([IOpenCapture(kind)], c, 0);
    InsideAppend([IOpenCapture(kind)] + c, [ICloseCapture]);
    if len >= 0 {
      InsidePlain([IFullCapture(kind, len)]);
      InsideAppend(c, [IFullCapture(kind, len)]);
    }
  }
}
