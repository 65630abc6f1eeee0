/**
 What the analyses that decide about accepting a pattern answer, both ways: each is compared with
 the derivations it looks for. A wrong refusal is as much an error as a wrong acceptance.
 */
module Exactness {
  import opened Charsets
  import opened Analysis
  import opened Semantics
  import opened Soundness
  import opened Verify
  import opened LeftCalls
  import opened Stability

  // ---- hascaptures

  /** A capture can be found in t by going into parts and, at most k deep, into called rules. */
  ghost predicate CaptureAt(g: Grammar, k: nat, t: Tree)
    decreases k, t
  {
    match t
    case TCapture(_, _) => true
    case TRep(p) => CaptureAt(g, k, p)
    case TSeq(p1, p2) => CaptureAt(g, k, p1) || CaptureAt(g, k, p2)
    case TChoice(p1, p2) => CaptureAt(g, k, p1) || CaptureAt(g, k, p2)
    case TNot(p) => CaptureAt(g, k, p)
    case TAnd(p) => CaptureAt(g, k, p)
    case TBehind(_, p) => CaptureAt(g, k, p)
    case TCall(n) => k > 0 && n < |g| && CaptureAt(g, k - 1, g[n])
    case TGrammar(rules) => |rules| > 0 && CaptureAt(rules, k, rules[0])
    case _ => false
  }

  lemma {:induction false} CaptureFound(g: Grammar, seen: set<nat>, t: Tree) returns (k: nat)
    requires HasCaptures(g, seen, t)
    ensures CaptureAt(g, k, t)
    decreases Max(Nest(t), NestAll(g)), Unseen(g, seen), t
  {
    match t
    case TCapture(_, _) => k := 0;
    case TRep(p) => k := CaptureFound(g, seen, p);
    case TSeq(p1, p2) => if HasCaptures(g, seen, p1) { k := CaptureFound(g, seen, p1); } else { k := CaptureFound(g, seen, p2); }
    case TChoice(p1, p2) => if HasCaptures(g, seen, p1) { k := CaptureFound(g, seen, p1); } else { k := CaptureFound(g, seen, p2); }
    case TNot(p) => k := CaptureFound(g, seen, p);
    case TAnd(p) => k := CaptureFound(g, seen, p);
    case TBehind(_, p) => k := CaptureFound(g, seen, p);
    case TCall(n) =>
      k := CaptureFound(g, seen + {n}, g[n]);
      k := k + 1;
    case TGrammar(rules) => k := CaptureFound(rules, {}, rules[0]);
  }

  lemma {:induction false} NoneFound(g: Grammar, k: nat, t: Tree)
    requires !HasCaptures(g, {}, t)
    ensures !CaptureAt(g, k, t)
    decreases k, t
  {
    match t
    case TRep(p) => NoneFound(g, k, p);
    case TSeq(p1, p2) => NoneFound(g, k, p1); NoneFound(g, k, p2);
    case TChoice(p1, p2) => NoneFound(g, k, p1); NoneFound(g, k, p2);
    case TNot(p) => NoneFound(g, k, p);
    case TAnd(p) => NoneFound(g, k, p);
    case TBehind(_, p) => NoneFound(g, k, p);
    case TCall(n) =>
      if k > 0 && n < |g| {
        assert {} + {n} == {n};
        CapturesReopen(g, {}, n, g[n]);
        NoneFound(g, k - 1, g[n]);
      }
    case TGrammar(rules) =>
      if |rules| > 0 {
        NoneFound(rules, k, rules[0]);
      }
    case _ =>
  }

  ghost predicate HoldsCapture(g: Grammar, t: Tree) { exists k: nat :: CaptureAt(g, k, t) }

  /** hascaptures is exact: yes when a capture can be found, and only then. */
  lemma CapturesExact(g: Grammar, t: Tree)
    ensures HasCaptures(g, {}, t) <==> HoldsCapture(g, t)
  {
    if HasCaptures(g, {}, t) {
      var k := CaptureFound(g, {}, t);
      Holds(g, k, t);
    } else {
      forall k: nat ensures !CaptureAt(g, k, t) { NoneFound(g, k, t); }
    }
  }

  lemma Holds(g: Grammar, k: nat, t: Tree)
    requires CaptureAt(g, k, t)
    ensures HoldsCapture(g, t)
  {
    hide CaptureAt;
  }

  // ---- fixedlen

  /** A derivation, at most k calls deep, that gives t the one length n. */
  ghost predicate LengthIs(g: Grammar, k: nat, t: Tree, n: nat)
    decreases k, t
  {
    match t
    case TChar(_) => n == 1
    case TSet(_) => n == 1
    case TAny => n == 1
    case TTrue => n == 0
    case TFalse => n == 0
    case TNot(_) => n == 0
    case TAnd(_) => n == 0
    case TBehind(_, _) => n == 0
    case TRep(_) => false
    case TCapture(_, p) => LengthIs(g, k, p, n)
    case TSeq(p1, p2) => exists a: nat :: a <= n && LengthIs(g, k, p1, a) && LengthIs(g, k, p2, n - a)
    case TChoice(p1, p2) => LengthIs(g, k, p1, n) && LengthIs(g, k, p2, n)
    case TCall(m) => k > 0 && m < |g| && LengthIs(g, k - 1, g[m], n)
    case TGrammar(rules) => |rules| > 0 && LengthIs(rules, k, rules[0], n)
  }

  lemma {:induction false} LengthMore(g: Grammar, k: nat, m: nat, t: Tree, n: nat)
    requires LengthIs(g, k, t, n) && k <= m
    ensures LengthIs(g, m, t, n)
    decreases k, t
  {
    match t
    case TCapture(_, p) => LengthMore(g, k, m, p, n);
    case TSeq(p1, p2) =>
      var a: nat :| a <= n && LengthIs(g, k, p1, a) && LengthIs(g, k, p2, n - a);
      LengthMore(g, k, m, p1, a);
      LengthMore(g, k, m, p2, n - a);
    case TChoice(p1, p2) => LengthMore(g, k, m, p1, n); LengthMore(g, k, m, p2, n);
    case TCall(c) => LengthMore(g, k - 1, m - 1, g[c], n);
    case TGrammar(rules) => LengthMore(rules, k, m, rules[0], n);
    case _ =>
  }

  lemma {:induction false} LengthFound(g: Grammar, seen: set<nat>, t: Tree) returns (k: nat)
    requires FixedLen(g, seen, t) >= 0
    ensures LengthIs(g, k, t, FixedLen(g, seen, t))
    decreases Max(Nest(t), NestAll(g)), Unseen(g, seen), t
  {
    k := 0;
    match t
    case TCapture(_, p) => k := LengthFound(g, seen, p);
    case TSeq(p1, p2) =>
      var n1, n2 := FixedLen(g, seen, p1), FixedLen(g, seen, p2);
      var k1 := LengthFound(g, seen, p1);
      var k2 := LengthFound(g, seen, p2);
      k := Max(k1, k2);
      LengthMore(g, k1, k, p1, n1);
      LengthMore(g, k2, k, p2, n2);
      assert n1 + n2 - n1 == n2;
    case TChoice(p1, p2) =>
      var k1 := LengthFound(g, seen, p1);
      var k2 := LengthFound(g, seen, p2);
      k := Max(k1, k2);
      LengthMore(g, k1, k, p1, FixedLen(g, seen, t));
      LengthMore(g, k2, k, p2, FixedLen(g, seen, t));
    case TCall(n) =>
      k := LengthFound(g, seen + {n}, g[n]);
      k := k + 1;
    case TGrammar(rules) => k := LengthFound(rules, {}, rules[0]);
    case _ =>
  }

  /** No rule entered before has a derivation shorter than k. */
  ghost predicate Longer(g: Grammar, seen: set<nat>, k: nat) {
    forall a: nat, m, n: nat :: a < k && m in seen && m < |g| ==> !LengthIs(g, a, g[m], n)
  }

  /** The shortest derivation. */
  lemma {:induction false} Shortest(g: Grammar, k: nat, t: Tree, n: nat) returns (b: nat, m: nat)
    requires LengthIs(g, k, t, n)
    ensures b <= k && LengthIs(g, b, t, m) && forall a: nat, l: nat :: a < b ==> !LengthIs(g, a, t, l)
    decreases k
  {
    if a: nat, l: nat :| a < k && LengthIs(g, a, t, l) {
      b, m := Shortest(g, a, t, l);
    } else {
      b, m := k, n;
    }
  }

  lemma {:induction false} LengthExact(g: Grammar, seen: set<nat>, k: nat, t: Tree, n: nat)
    requires LengthIs(g, k, t, n) && Longer(g, seen, k)
    ensures FixedLen(g, seen, t) == n
    decreases k, t
  {
    match t
    case TCapture(_, p) => LengthExact(g, seen, k, p, n);
    case TSeq(p1, p2) =>
      var a: nat :| a <= n && LengthIs(g, k, p1, a) && LengthIs(g, k, p2, n - a);
      LengthExact(g, seen, k, p1, a);
      LengthExact(g, seen, k, p2, n - a);
    case TChoice(p1, p2) => LengthExact(g, seen, k, p1, n); LengthExact(g, seen, k, p2, n);
    case TCall(m) =>
      assert m !in seen;
      var b, l := Shortest(g, k - 1, g[m], n);
      LengthMore(g, b, k - 1, g[m], l);
      OneLength(g, k - 1, g[m], l, n);
      assert Longer(g, seen + {m}, b);
      LengthExact(g, seen + {m}, b, g[m], n);
    case TGrammar(rules) => LengthExact(rules, {}, k, rules[0], n);
    case _ =>
  }

  lemma {:induction false} OneLength(g: Grammar, k: nat, t: Tree, a: nat, b: nat)
    requires LengthIs(g, k, t, a) && LengthIs(g, k, t, b)
    ensures a == b
    decreases k, t
  {
    match t
    case TCapture(_, p) => OneLength(g, k, p, a, b);
    case TSeq(p1, p2) =>
      var x: nat :| x <= a && LengthIs(g, k, p1, x) && LengthIs(g, k, p2, a - x);
      var y: nat :| y <= b && LengthIs(g, k, p1, y) && LengthIs(g, k, p2, b - y);
      OneLength(g, k, p1, x, y);
      OneLength(g, k, p2, a - x, b - y);
    case TChoice(p1, p2) => OneLength(g, k, p1, a, b);
    case TCall(m) => OneLength(g, k - 1, g[m], a, b);
    case TGrammar(rules) => OneLength(rules, k, rules[0], a, b);
    case _ =>
  }

  /** fixedlen is exact: it gives n when some finite derivation does, and -1 when none gives any length. */
  lemma FixedLenExact(g: Grammar, t: Tree, n: nat)
    ensures FixedLen(g, {}, t) == n <==> exists k: nat :: LengthIs(g, k, t, n)
  {
    if FixedLen(g, {}, t) == n {
      var k := LengthFound(g, {}, t);
      assert LengthIs(g, k, t, n);
    } else if k: nat :| LengthIs(g, k, t, n) {
      LengthExact(g, {}, k, t, n);
    }
  }

  // ---- the empty string

  /** A derivation, at most k calls deep, of t taking no character; nested grammars included. */
  ghost predicate Empty(g: Grammar, k: nat, t: Tree)
    decreases k, t
  {
    match t
    case TTrue => true
    case TBehind(_, _) => true
    case TNot(_) => true
    case TAnd(_) => true
    case TRep(_) => true
    case TCapture(_, p) => Empty(g, k, p)
    case TSeq(p1, p2) => Empty(g, k, p1) && Empty(g, k, p2)
    case TChoice(p1, p2) => Empty(g, k, p1) || Empty(g, k, p2)
    case TCall(n) => k > 0 && n < |g| && Empty(g, k - 1, g[n])
    case TGrammar(rules) => |rules| > 0 && Empty(rules, k, rules[0])
    case _ => false
  }

  ghost predicate MayBeEmpty(g: Grammar, t: Tree) { exists k: nat :: Empty(g, k, t) }

  lemma {:induction false} EmptyMore(g: Grammar, k: nat, m: nat, t: Tree)
    requires Empty(g, k, t) && k <= m
    ensures Empty(g, m, t)
    decreases k, t
  {
    match t
    case TCapture(_, p) => EmptyMore(g, k, m, p);
    case TSeq(p1, p2) => EmptyMore(g, k, m, p1); EmptyMore(g, k, m, p2);
    case TChoice(p1, p2) => if Empty(g, k, p1) { EmptyMore(g, k, m, p1); } else { EmptyMore(g, k, m, p2); }
    case TCall(n) => EmptyMore(g, k - 1, m - 1, g[n]);
    case TGrammar(rules) => EmptyMore(rules, k, m, rules[0]);
    case _ =>
  }

  /** nullable misses no derivation, however few calls it follows. */
  lemma {:induction false} EmptyNullable(g: Grammar, k: nat, d: nat, t: Tree)
    requires Empty(g, k, t)
    ensures Nullable(g, d, t)
    decreases k, t
  {
    match t
    case TCapture(_, p) => EmptyNullable(g, k, d, p);
    case TSeq(p1, p2) => EmptyNullable(g, k, d, p1); EmptyNullable(g, k, d, p2);
    case TChoice(p1, p2) => if Empty(g, k, p1) { EmptyNullable(g, k, d, p1); } else { EmptyNullable(g, k, d, p2); }
    case TCall(n) => if d > 0 { EmptyNullable(g, k - 1, d - 1, g[n]); }
    case TGrammar(rules) => EmptyNullable(rules, k, d, rules[0]);
    case _ =>
  }

  /** Following calls deep enough, nullable finds only derivations. */
  lemma {:induction false} NullableFound(g: Grammar, v: nat, t: Tree, left: nat, nb: bool, l: nat, d: nat) returns (k: nat)
    requires Around(g, v) && Checked(v, t) && Level(g, t) <= l && Nullable(g, d, t)
    requires !VerifyRule(g, v, t, left, nb, true).Error?
    requires v >= (l + 1) * STEP && d >= left + l * STEP
    ensures Empty(g, k, t)
    decreases l, left, t
  {
    k := 0;
    match t
    case TCapture(_, p) => k := NullableFound(g, v, p, left, nb, l, d);
    case TSeq(p1, p2) =>
      CheckStable(g, v, p1, left, false, l, d, d, PEnullable);
      var k1 := NullableFound(g, v, p1, left, false, l, d);
      var k2 := NullableFound(g, v, p2, left, nb, l, d);
      k := Max(k1, k2);
      EmptyMore(g, k1, k, p1);
      EmptyMore(g, k2, k, p2);
    case TChoice(p1, p2) =>
      if Nullable(g, d, p1) {
        k := NullableFound(g, v, p1, left, nb, l, d);
      } else {
        k := NullableFound(g, v, p2, left, VerifyRule(g, v, p1, left, nb, true).nullable, l, d);
      }
    case TCall(n) =>
      k := NullableFound(g, v, g[n], left - 1, nb, l, d - 1);
      k := k + 1;
    case TGrammar(rules) =>
      Stability.Inside(g, v, t, l);
      k := NullableFound(rules, v, rules[0], MAX_RULES, false, l - 1, d);
    case _ =>
  }

  /** nullable is exact on every part of a rule of a grammar in which verifyrule finds no left recursion. */
  lemma NullableExact(g: Grammar, v: nat, t: Tree, l: nat)
    requires Around(g, v) && Checked(v, t) && CallsIn(g, t) && Level(g, t) <= l && v >= Deep(l)
    ensures Nullable(g, v, t) <==> MayBeEmpty(g, t)
  {
    if Nullable(g, v, t) {
      FreshStart(g, v, t, false);
      var k := NullableFound(g, v, t, MAX_RULES + 1, false, l, v);
    }
    if k: nat :| Empty(g, k, t) {
      EmptyNullable(g, k, v, t);
    }
  }

  /** The emptiness that left calls are defined by is this one, also through nested grammars. */
  lemma EmptinessAgrees(g: Grammar, v: nat, t: Tree, l: nat)
    requires Checked(v, t) && Level(g, t) <= l && v >= Deep(l) && forall k :: 0 <= k < |g| ==> Checked(v, g[k])
    ensures CanBeEmpty(g, v, t) <==> MayBeEmpty(g, t)
  {
    if k: nat :| Empties(g, v, k, t) {
      var m := EmptiesFound(g, v, k, t, l);
      assert Empty(g, m, t);
    }
    if k: nat :| Empty(g, k, t) {
      EmptyEmpties(g, v, k, t);
      assert Empties(g, v, k, t);
    }
  }

  lemma {:induction false} EmptiesFound(g: Grammar, v: nat, k: nat, t: Tree, l: nat) returns (m: nat)
    requires Checked(v, t) && Level(g, t) <= l && v >= Deep(l) && forall k :: 0 <= k < |g| ==> Checked(v, g[k])
    requires Empties(g, v, k, t)
    ensures Empty(g, m, t)
    decreases k, t
  {
    m := 0;
    match t
    case TCapture(_, p) => m := EmptiesFound(g, v, k, p, l);
    case TSeq(p1, p2) =>
      var m1 := EmptiesFound(g, v, k, p1, l);
      var m2 := EmptiesFound(g, v, k, p2, l);
      m := Max(m1, m2);
      EmptyMore(g, m1, m, p1);
      EmptyMore(g, m2, m, p2);
    case TChoice(p1, p2) => if Empties(g, v, k, p1) { m := EmptiesFound(g, v, k, p1, l); } else { m := EmptiesFound(g, v, k, p2, l); }
    case TCall(n) =>
      m := EmptiesFound(g, v, k - 1, g[n], l);
      m := m + 1;
    case TGrammar(rules) =>
      Stability.Inside(g, v, t, l);
      m := NullableFound(rules, v, rules[0], MAX_RULES, false, l - 1, v);
    case _ =>
  }

  lemma {:induction false} EmptyEmpties(g: Grammar, v: nat, k: nat, t: Tree)
    requires Empty(g, k, t)
    ensures Empties(g, v, k, t)
    decreases k, t
  {
    match t
    case TCapture(_, p) => EmptyEmpties(g, v, k, p);
    case TSeq(p1, p2) => EmptyEmpties(g, v, k, p1); EmptyEmpties(g, v, k, p2);
    case TChoice(p1, p2) => if Empty(g, k, p1) { EmptyEmpties(g, v, k, p1); } else { EmptyEmpties(g, v, k, p2); }
    case TCall(n) => EmptyEmpties(g, v, k - 1, g[n]);
    case TGrammar(rules) => EmptyNullable(rules, k, v, rules[0]);
    case _ =>
  }

  // ---- checkloops

  /** r is t, or a part of it outside nested grammars. */
  ghost predicate PartOf(r: Tree, t: Tree) {
    r == t ||
    match t
    case TRep(p) => PartOf(r, p)
    case TSeq(p1, p2) => PartOf(r, p1) || PartOf(r, p2)
    case TChoice(p1, p2) => PartOf(r, p1) || PartOf(r, p2)
    case TNot(p) => PartOf(r, p)
    case TAnd(p) => PartOf(r, p)
    case TBehind(_, p) => PartOf(r, p)
    case TCapture(_, p) => PartOf(r, p)
    case _ => false
  }

  ghost predicate NullableLoop(g: Grammar, d: nat, t: Tree) { exists p :: PartOf(TRep(p), t) && Nullable(g, d, p) }

  /** Some repetition in t, outside nested grammars, has a body that may take no character. */
  ghost predicate EmptyLoop(g: Grammar, t: Tree) { exists p :: PartOf(TRep(p), t) && MayBeEmpty(g, p) }

  lemma {:induction false} LoopFound(g: Grammar, d: nat, t: Tree) returns (p: Tree)
    requires CheckLoops(g, d, t)
    ensures PartOf(TRep(p), t) && Nullable(g, d, p)
  {
    match t
    case TRep(q) => if Nullable(g, d, q) { p := q; } else { p := LoopFound(g, d, q); }
    case TSeq(p1, p2) => if CheckLoops(g, d, p1) { p := LoopFound(g, d, p1); } else { p := LoopFound(g, d, p2); }
    case TChoice(p1, p2) => if CheckLoops(g, d, p1) { p := LoopFound(g, d, p1); } else { p := LoopFound(g, d, p2); }
    case TNot(q) => p := LoopFound(g, d, q);
    case TAnd(q) => p := LoopFound(g, d, q);
    case TBehind(_, q) => p := LoopFound(g, d, q);
    case TCapture(_, q) => p := LoopFound(g, d, q);
  }

  lemma {:induction false} LoopSeen(g: Grammar, d: nat, t: Tree, p: Tree)
    requires PartOf(TRep(p), t) && Nullable(g, d, p)
    ensures CheckLoops(g, d, t)
  {
    if t != TRep(p) {
      match t
      case TRep(q) => LoopSeen(g, d, q, p);
      case TSeq(p1, p2) => if PartOf(TRep(p), p1) { LoopSeen(g, d, p1, p); } else { LoopSeen(g, d, p2, p); }
      case TChoice(p1, p2) => if PartOf(TRep(p), p1) { LoopSeen(g, d, p1, p); } else { LoopSeen(g, d, p2, p); }
      case TNot(q) => LoopSeen(g, d, q, p);
      case TAnd(q) => LoopSeen(g, d, q, p);
      case TBehind(_, q) => LoopSeen(g, d, q, p);
      case TCapture(_, q) => LoopSeen(g, d, q, p);
    }
  }

  /** checkloops finds a repetition whose body is nullable exactly when there is one. */
  lemma CheckLoopsExact(g: Grammar, d: nat, t: Tree)
    ensures CheckLoops(g, d, t) <==> NullableLoop(g, d, t)
  {
    if CheckLoops(g, d, t) {
      var p := LoopFound(g, d, t);
    }
    if p :| PartOf(TRep(p), t) && Nullable(g, d, p) {
      LoopSeen(g, d, t, p);
    }
  }

  /** What the analyses need holds of every part. */
  lemma {:induction false} PartFits(g: Grammar, v: nat, t: Tree, r: Tree)
    requires Checked(v, t) && CallsIn(g, t) && PartOf(r, t)
    ensures Checked(v, r) && CallsIn(g, r) && Level(g, r) <= Level(g, t)
  {
    if r != t {
      match t
      case TRep(p) => PartFits(g, v, p, r);
      case TSeq(p1, p2) => if PartOf(r, p1) { PartFits(g, v, p1, r); } else { PartFits(g, v, p2, r); }
      case TChoice(p1, p2) => if PartOf(r, p1) { PartFits(g, v, p1, r); } else { PartFits(g, v, p2, r); }
      case TNot(p) => PartFits(g, v, p, r);
      case TAnd(p) => PartFits(g, v, p, r);
      case TBehind(_, p) => PartFits(g, v, p, r);
      case TCapture(_, p) => PartFits(g, v, p, r);
    }
  }

  /** checkloops, after verifyrule has passed, refuses exactly the patterns with a loop over the empty string. */
  lemma LoopsExactly(g: Grammar, v: nat, t: Tree, l: nat)
    requires Around(g, v) && Checked(v, t) && CallsIn(g, t) && Level(g, t) <= l && v >= Deep(l)
    ensures CheckLoops(g, v, t) <==> EmptyLoop(g, t)
  {
    CheckLoopsExact(g, v, t);
    forall p | PartOf(TRep(p), t) ensures Nullable(g, v, p) <==> MayBeEmpty(g, p) {
      PartFits(g, v, t, TRep(p));
      NullableExact(g, v, p, l);
    }
  }

  // ---- verifygrammar

  /** The rules of a grammar as newgrammar has them: few enough, calls resolved, nested grammars verified, followed deep enough. */
  ghost predicate Given(g: Grammar, v: nat, l: nat) {
    |g| <= MAX_RULES && AllResolved(g) && v >= Deep(l) && NestAll(g) <= l
    && forall k :: 0 <= k < |g| ==> Checked(v, g[k])
  }

  lemma {:induction false} ResolvedCalls(n: nat, t: Tree)
    requires Resolved(n, t)
    ensures forall m :: m in Calls(t) ==> m < n
  {
    match t
    case TRep(p) => ResolvedCalls(n, p);
    case TSeq(p1, p2) => ResolvedCalls(n, p1); ResolvedCalls(n, p2);
    case TChoice(p1, p2) => ResolvedCalls(n, p1); ResolvedCalls(n, p2);
    case TNot(p) => ResolvedCalls(n, p);
    case TAnd(p) => ResolvedCalls(n, p);
    case TBehind(_, p) => ResolvedCalls(n, p);
    case TCapture(_, p) => ResolvedCalls(n, p);
    case _ =>
  }

  lemma CallsAreIn(g: Grammar)
    requires AllResolved(g)
    ensures forall k :: 0 <= k < |g| ==> CallsIn(g, g[k])
  {
    forall k | 0 <= k < |g| ensures CallsIn(g, g[k]) {
      ResolvedCalls(|g|, g[k]);
    }
  }

  /** No rule somebody calls may be left recursive or loop over the empty string. */
  ghost predicate Harmless(g: Grammar, v: nat) {
    forall k :: 0 <= k < |g| && Used(g, k) ==> !LeftRecursive(g, v, k) && !EmptyLoop(g, g[k])
  }

  lemma LeftOkExactly(g: Grammar, v: nat)
    requires |g| <= MAX_RULES && AllResolved(g)
    ensures LeftOk(g, v) <==> forall k :: 0 <= k < |g| && Used(g, k) ==> !LeftRecursive(g, v, k)
  {
    forall k | 0 <= k < |g| && Used(g, k)
      ensures VerifyRule(g, v, g[k], MAX_RULES, false, true).Error? <==> LeftRecursive(g, v, k)
    {
      ErrsExactly(g, v, k);
    }
  }

  /**
   What verifygrammar decides. With its accumulator kept it would accept a grammar exactly when no
   used rule may be left recursive or loops over the empty string. As it is, it accepts those, and
   what else it accepts is left recursive behind a nested grammar.
   */
  lemma AcceptsExactly(g: Grammar, v: nat, l: nat)
    requires Given(g, v, l)
    ensures AcceptedFixed(g, v) <==> Harmless(g, v)
    ensures Harmless(g, v) ==> Accepted(g, v)
    ensures Accepted(g, v) && !Harmless(g, v) ==>
      exists k :: 0 <= k < |g| && Used(g, k) && LeftRecursive(g, v, k) && !KeepsFlag(g, v, g[k], MAX_RULES, false)
  {
    hide Deep, LeftRecursive, EmptyLoop, VerifyRule, Checked, CallsIn;
    LeftOkExactly(g, v);
    AcceptedExactly(g, v);
    CallsAreIn(g);
    if LeftOk(g, v) {
      forall k | 0 <= k < |g| && Used(g, k) ensures CheckLoops(g, v, g[k]) <==> EmptyLoop(g, g[k]) {
        LoopsExactly(g, v, g[k], l);
      }
    } else if Accepted(g, v) {
      var k :| 0 <= k < |g| && Used(g, k) && LeftRecursive(g, v, k);
      MissedHidden(g, v, k);
    }
  }

  /** For every grammar, left recursive or not: accepted when verifyrule is silent and no repetition of a used rule has a nullable body. */
  lemma AcceptedMeans(g: Grammar, d: nat)
    ensures Accepted(g, d) <==>
      forall k :: 0 <= k < |g| && Used(g, k) ==>
        !VerifyRule(g, d, g[k], MAX_RULES, false, false).Error? && !NullableLoop(g, d, g[k])
  {
    forall k | 0 <= k < |g| ensures CheckLoops(g, d, g[k]) <==> NullableLoop(g, d, g[k]) {
      CheckLoopsExact(g, d, g[k]);
    }
  }

  // ---- look-behind

  /** lp_behind takes a pattern exactly when some derivation gives it one length of at most 255 and none finds a capture. */
  lemma BehindExactly(g: Grammar, d: nat, n: nat, p: Tree)
    requires WellFormed(g, d, p)
    ensures WellFormed(g, d, TBehind(n, p)) <==>
      (exists k: nat :: LengthIs(g, k, p, n)) && n <= MAX_BEHIND && !HoldsCapture(g, p)
  {
    FixedLenExact(g, p, n);
    CapturesExact(g, p);
  }
}
