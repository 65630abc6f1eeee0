/**
 Soundness of the static analyses of 3rd/lpeg/lpcode.c with respect to the meaning of
 patterns, for every analysis depth d.
 */
module Soundness {
  import opened Common
  import opened Charsets
  import opened Analysis
  import opened Semantics

  // ---- hascaptures

  lemma {:induction false} CapturesShrink(g: Grammar, v: set<nat>, w: set<nat>, t: Tree)
    requires v <= w && !HasCaptures(g, v, t)
    ensures !HasCaptures(g, w, t)
    decreases Max(Nest(t), NestAll(g)), Unseen(g, v), t
  {
    match t
    case TRep(p) => CapturesShrink(g, v, w, p);
    case TSeq(p1, p2) => CapturesShrink(g, v, w, p1); CapturesShrink(g, v, w, p2);
    case TChoice(p1, p2) => CapturesShrink(g, v, w, p1); CapturesShrink(g, v, w, p2);
    case TNot(p) => CapturesShrink(g, v, w, p);
    case TAnd(p) => CapturesShrink(g, v, w, p);
    case TBehind(_, p) => CapturesShrink(g, v, w, p);
    case TCall(n) =>
      if n < |g| && n !in w {
        CapturesShrink(g, v + {n}, w + {n}, g[n]);
      }
    case _ =>
  }

  /** Cutting the search off at rule n was harmless if n itself is capture-free. */
  lemma {:induction false} CapturesReopen(g: Grammar, v: set<nat>, n: nat, t: Tree)
    requires n < |g| && !HasCaptures(g, {n}, g[n]) && !HasCaptures(g, v + {n}, t)
    ensures !HasCaptures(g, v, t)
    decreases Max(Nest(t), NestAll(g)), Unseen(g, v), t
  {
    match t
    case TRep(p) => CapturesReopen(g, v, n, p);
    case TSeq(p1, p2) => CapturesReopen(g, v, n, p1); CapturesReopen(g, v, n, p2);
    case TChoice(p1, p2) => CapturesReopen(g, v, n, p1); CapturesReopen(g, v, n, p2);
    case TNot(p) => CapturesReopen(g, v, n, p);
    case TAnd(p) => CapturesReopen(g, v, n, p);
    case TBehind(_, p) => CapturesReopen(g, v, n, p);
    case TCall(m) =>
      if m < |g| && m !in v {
        if m == n {
          CapturesShrink(g, {n}, v + {n}, g[n]);
        } else {
          assert v + {n} + {m} == v + {m} + {n};
          CapturesReopen(g, v + {m}, n, g[m]);
        }
      }
    case _ =>
  }

  /** hascaptures is right: a pattern it clears records nothing. */
  lemma {:induction false} CapturesSound(fuel: nat, g: Grammar, t: Tree, s: Subject, i: nat, packed: bool)
    requires i <= |s| && !HasCaptures(g, {}, t)
    ensures var r := Eval(fuel, g, t, s, i, packed); r.Match? ==> r.caps == []
    decreases fuel, t
  {
    match t
    case TRep(p) =>
      CapturesSound(fuel, g, p, s, i, packed);
      var r := Eval(fuel, g, p, s, i, packed);
      if r.Match? && fuel > 0 {
        CapturesSound(fuel - 1, g, t, s, r.pos, packed);
      }
    case TSeq(p1, p2) =>
      CapturesSound(fuel, g, p1, s, i, packed);
      var r := Eval(fuel, g, p1, s, i, packed);
      if r.Match? {
        CapturesSound(fuel, g, p2, s, r.pos, packed);
      }
    case TChoice(p1, p2) =>
      CapturesSound(fuel, g, p1, s, i, packed);
      CapturesSound(fuel, g, p2, s, i, packed);
    case TCall(n) =>
      if fuel > 0 && n < |g| {
        assert {} + {n} == {n};
        CapturesReopen(g, {}, n, g[n]);
        CapturesSound(fuel - 1, g, g[n], s, i, packed);
      }
    case TGrammar(rules) =>
      if |rules| > 0 {
        CapturesSound(fuel, rules, rules[0], s, i, packed);
      }
    case _ =>
  }

  // ---- fixedlen

  lemma {:induction false} FixedLenReopen(g: Grammar, v: set<nat>, w: set<nat>, t: Tree)
    requires v <= w && FixedLen(g, w, t) >= 0
    ensures FixedLen(g, v, t) == FixedLen(g, w, t)
    decreases Max(Nest(t), NestAll(g)), Unseen(g, w), t
  {
    match t
    case TSeq(p1, p2) => FixedLenReopen(g, v, w, p1); FixedLenReopen(g, v, w, p2);
    case TChoice(p1, p2) => FixedLenReopen(g, v, w, p1); FixedLenReopen(g, v, w, p2);
    case TCapture(_, p) => FixedLenReopen(g, v, w, p);
    case TCall(n) => FixedLenReopen(g, v + {n}, w + {n}, g[n]);
    case _ =>
  }

  /** fixedlen is right: every match takes exactly that many characters. */
  lemma {:induction false} FixedLenSound(fuel: nat, g: Grammar, t: Tree, s: Subject, i: nat, packed: bool)
    requires i <= |s| && FixedLen(g, {}, t) >= 0
    ensures var r := Eval(fuel, g, t, s, i, packed); r.Match? ==> r.pos == i + FixedLen(g, {}, t)
    decreases fuel, t
  {
    match t
    case TSeq(p1, p2) =>
      FixedLenSound(fuel, g, p1, s, i, packed);
      var r := Eval(fuel, g, p1, s, i, packed);
      if r.Match? {
        FixedLenSound(fuel, g, p2, s, r.pos, packed);
      }
    case TChoice(p1, p2) =>
      FixedLenSound(fuel, g, p1, s, i, packed);
      FixedLenSound(fuel, g, p2, s, i, packed);
    case TCapture(_, p) => FixedLenSound(fuel, g, p, s, i, packed);
    case TCall(n) =>
      if fuel > 0 {
        FixedLenReopen(g, {}, {} + {n}, g[n]);
        FixedLenSound(fuel - 1, g, g[n], s, i, packed);
      }
    case TGrammar(rules) => FixedLenSound(fuel, rules, rules[0], s, i, packed);
    case _ =>
  }

  // ---- checkaux

  /** A pattern that is not nullable takes at least one character whenever it matches. */
  lemma {:induction false} NullableSound(fuel: nat, g: Grammar, d: nat, t: Tree, s: Subject, i: nat, packed: bool)
    requires i <= |s| && !Nullable(g, d, t)
    ensures var r := Eval(fuel, g, t, s, i, packed); r.Match? ==> i < r.pos
    decreases fuel, t
  {
    match t
    case TSeq(p1, p2) =>
      EvalAdvances(fuel, g, p1, s, i, packed);
      var r := Eval(fuel, g, p1, s, i, packed);
      if r.Match? {
        EvalAdvances(fuel, g, p2, s, r.pos, packed);
        if !Nullable(g, d, p1) {
          NullableSound(fuel, g, d, p1, s, i, packed);
        } else {
          NullableSound(fuel, g, d, p2, s, r.pos, packed);
        }
      }
    case TChoice(p1, p2) =>
      NullableSound(fuel, g, d, p1, s, i, packed);
      NullableSound(fuel, g, d, p2, s, i, packed);
    case TCapture(_, p) => NullableSound(fuel, g, d, p, s, i, packed);
    case TCall(n) =>
      if fuel > 0 {
        NullableSound(fuel - 1, g, d - 1, g[n], s, i, packed);
      }
    case TGrammar(rules) => NullableSound(fuel, rules, d, rules[0], s, i, packed);
    case _ =>
  }

  /** A nofail pattern never fails, at any position of any subject. */
  lemma {:induction false} NoFailSound(fuel: nat, g: Grammar, d: nat, t: Tree, s: Subject, i: nat, packed: bool)
    requires i <= |s| && NoFail(g, d, t)
    ensures !Eval(fuel, g, t, s, i, packed).Fail?
    decreases fuel, t
  {
    match t
    case TRep(p) =>
      var r := Eval(fuel, g, p, s, i, packed);
      if r.Match? && fuel > 0 {
        assert NoFail(g, d, t);
        NoFailSound(fuel - 1, g, d, t, s, r.pos, packed);
      }
    case TAnd(p) => NoFailSound(fuel, g, d, p, s, i, packed);
    case TSeq(p1, p2) =>
      NoFailSound(fuel, g, d, p1, s, i, packed);
      var r := Eval(fuel, g, p1, s, i, packed);
      if r.Match? {
        NoFailSound(fuel, g, d, p2, s, r.pos, packed);
      }
    case TChoice(p1, p2) =>
      if NoFail(g, d, p2) {
        NoFailSound(fuel, g, d, p2, s, i, packed);
      } else {
        NoFailSound(fuel, g, d, p1, s, i, packed);
      }
    case TCapture(_, p) => NoFailSound(fuel, g, d, p, s, i, packed);
    case TCall(n) =>
      if fuel > 0 {
        NoFailSound(fuel - 1, g, d - 1, g[n], s, i, packed);
      }
    case TGrammar(rules) => NoFailSound(fuel, rules, d, rules[0], s, i, packed);
    case _ =>
  }

  /** nofail implies nullable. */
  lemma {:induction false} NoFailNullable(g: Grammar, d: nat, t: Tree)
    requires NoFail(g, d, t)
    ensures Nullable(g, d, t)
    decreases d, t
  {
    match t
    case TSeq(p1, p2) => NoFailNullable(g, d, p1); NoFailNullable(g, d, p2);
    case TChoice(p1, p2) =>
      if NoFail(g, d, p2) {
        NoFailNullable(g, d, p2);
      } else {
        NoFailNullable(g, d, p1);
      }
    case TCapture(_, p) => NoFailNullable(g, d, p);
    case TCall(n) => NoFailNullable(g, d - 1, g[n]);
    case TGrammar(rules) => NoFailNullable(rules, d, rules[0]);
    case _ =>
  }

  // ---- getfirst

  /** Nothing follows position j, or what follows can start with the character there. */
  predicate Viable(s: Subject, j: nat, follow: Charset) { j < |s| ==> follow[s[j]] }

  /**
   getfirst is right: if t matches at a character, that character is in the first set. The
   follow set only matters for matches that take nothing.
   */
  lemma {:induction false} FirstSound(
      fuel: nat, g: Grammar, w: nat, d: nat, t: Tree, s: Subject, i: nat, packed: bool, follow: Charset)
    requires i < |s| && WellFormed(g, w, t) && WellFormedRules(g, w)
    requires var r := Eval(fuel, g, t, s, i, packed); r.Match? && (r.pos == i ==> follow[s[i]])
    ensures GetFirst(g, d, t, follow).set_[s[i]]
    decreases fuel, t
  {
    match t
    case TRep(p) =>
      var r := Eval(fuel, g, p, s, i, packed);
      if r.Match? {
        NullableSound(fuel, g, w, p, s, i, packed);
        FirstSound(fuel, g, w, d, p, s, i, packed, follow);
      }
    case TSeq(p1, p2) =>
      var r := Eval(fuel, g, p1, s, i, packed);
      EvalAdvances(fuel, g, p1, s, i, packed);
      EvalAdvances(fuel, g, p2, s, r.pos, packed);
      if !Nullable(g, d, p1) {
        FirstSound(fuel, g, w, d, p1, s, i, packed, FullSet());
      } else {
        if r.pos == i {
          FirstSound(fuel, g, w, d, p2, s, i, packed, follow);
        }
        FirstSound(fuel, g, w, d, p1, s, i, packed, GetFirst(g, d, p2, follow).set_);
      }
    case TChoice(p1, p2) =>
      if Eval(fuel, g, p1, s, i, packed).Match? {
        FirstSound(fuel, g, w, d, p1, s, i, packed, follow);
      } else {
        FirstSound(fuel, g, w, d, p2, s, i, packed, follow);
      }
    case TAnd(p) => FirstSound(fuel, g, w, d, p, s, i, packed, follow);
    case TCapture(_, p) => FirstSound(fuel, g, w, d, p, s, i, packed, follow);
    case TCall(n) =>
      if d > 0 {
        FirstSound(fuel - 1, g, w, d - 1, g[n], s, i, packed, follow);
      }
    case TGrammar(rules) =>
      assert Used(rules, 0);
      FirstSound(fuel, rules, w, d, rules[0], s, i, packed, follow);
    case _ =>
  }

  /** A zero result of getfirst: the pattern fails where the subject is exhausted. */
  lemma {:induction false} FirstEmptySound(
      fuel: nat, g: Grammar, d: nat, t: Tree, s: Subject, packed: bool, follow: Charset)
    requires !GetFirst(g, d, t, follow).empty
    ensures !Eval(fuel, g, t, s, |s|, packed).Match?
    decreases fuel, t
  {
    match t
    case TSeq(p1, p2) =>
      EvalAdvances(fuel, g, p1, s, |s|, packed);
      if !Nullable(g, d, p1) {
        FirstEmptySound(fuel, g, d, p1, s, packed, FullSet());
      } else {
        var f2 := GetFirst(g, d, p2, follow);
        if f2.empty {
          FirstEmptySound(fuel, g, d, p1, s, packed, f2.set_);
        } else {
          FirstEmptySound(fuel, g, d, p2, s, packed, follow);
        }
      }
    case TChoice(p1, p2) =>
      FirstEmptySound(fuel, g, d, p1, s, packed, follow);
      FirstEmptySound(fuel, g, d, p2, s, packed, follow);
    case TAnd(p) => FirstEmptySound(fuel, g, d, p, s, packed, follow);
    case TCapture(_, p) => FirstEmptySound(fuel, g, d, p, s, packed, follow);
    case TCall(n) =>
      if fuel > 0 {
        FirstEmptySound(fuel - 1, g, d - 1, g[n], s, packed, follow);
      }
    case TGrammar(rules) => FirstEmptySound(fuel, rules, d, rules[0], s, packed, follow);
    case _ =>
  }

  /** A pattern that cannot fail may start with anything. */
  lemma {:induction false} NoFailFirst(g: Grammar, d: nat, t: Tree, c: Byte)
    requires NoFail(g, d, t)
    ensures GetFirst(g, d, t, FullSet()).set_[c]
    ensures GetFirst(g, d, t, FullSet()).set_ == FullSet()
    decreases d, t
  {
    assert FullSet()[c];
    match t
    case TRep(p) => assert Union(GetFirst(g, d, p, FullSet()).set_, FullSet()) == FullSet();
    case TAnd(p) =>
      NoFailFirst(g, d, p, c);
      assert Intersect(FullSet(), FullSet()) == FullSet();
    case TSeq(p1, p2) =>
      NoFailNullable(g, d, p1);
      NoFailFirst(g, d, p2, c);
      NoFailFirst(g, d, p1, c);
    case TChoice(p1, p2) =>
      var f1, f2 := GetFirst(g, d, p1, FullSet()).set_, GetFirst(g, d, p2, FullSet()).set_;
      if NoFail(g, d, p2) {
        NoFailFirst(g, d, p2, c);
      } else {
        NoFailFirst(g, d, p1, c);
      }
      assert Union(f1, f2) == FullSet();
    case TCapture(_, p) => NoFailFirst(g, d, p, c);
    case TCall(n) => NoFailFirst(g, d - 1, g[n], c);
    case TGrammar(rules) => NoFailFirst(rules, d, rules[0], c);
    case _ =>
  }

  /** A headfail pattern never needs a test that lets the empty subject through. */
  lemma {:induction false} HeadFailNotEmpty(g: Grammar, d: nat, t: Tree, follow: Charset)
    requires HeadFail(g, d, t)
    ensures !GetFirst(g, d, t, follow).empty
    decreases d, t
  {
    match t
    case TAnd(p) => HeadFailNotEmpty(g, d, p, follow);
    case TCapture(_, p) => HeadFailNotEmpty(g, d, p, follow);
    case TSeq(p1, p2) =>
      if Nullable(g, d, p1) {
        HeadFailNotEmpty(g, d, p1, GetFirst(g, d, p2, follow).set_);
      } else {
        HeadFailNotEmpty(g, d, p1, FullSet());
      }
    case TChoice(p1, p2) => HeadFailNotEmpty(g, d, p1, follow); HeadFailNotEmpty(g, d, p2, follow);
    case TCall(n) => HeadFailNotEmpty(g, d - 1, g[n], follow);
    case TGrammar(rules) => HeadFailNotEmpty(rules, d, rules[0], follow);
    case _ =>
  }

  /** headfail is right: with a next character from the first set the pattern cannot fail. */
  lemma {:induction false} HeadFailSound(fuel: nat, g: Grammar, d: nat, t: Tree, s: Subject, i: nat, packed: bool)
    requires i < |s| && HeadFail(g, d, t)
    requires GetFirst(g, d, t, FullSet()).set_[s[i]]
    ensures !Eval(fuel, g, t, s, i, packed).Fail?
    decreases fuel, t
  {
    match t
    case TAnd(p) => HeadFailSound(fuel, g, d, p, s, i, packed);
    case TCapture(_, p) => HeadFailSound(fuel, g, d, p, s, i, packed);
    case TSeq(p1, p2) =>
      if Nullable(g, d, p1) {
        NoFailFirst(g, d, p2, s[i]);
      }
      HeadFailSound(fuel, g, d, p1, s, i, packed);
      var r := Eval(fuel, g, p1, s, i, packed);
      if r.Match? {
        NoFailSound(fuel, g, d, p2, s, r.pos, packed);
      }
    case TChoice(p1, p2) =>
      if GetFirst(g, d, p1, FullSet()).set_[s[i]] {
        HeadFailSound(fuel, g, d, p1, s, i, packed);
      } else {
        HeadFailSound(fuel, g, d, p2, s, i, packed);
      }
    case TCall(n) =>
      if fuel > 0 {
        HeadFailSound(fuel - 1, g, d - 1, g[n], s, i, packed);
      }
    case TGrammar(rules) => HeadFailSound(fuel, rules, d, rules[0], s, i, packed);
    case _ =>
  }
}
