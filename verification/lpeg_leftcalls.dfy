/**
 What verifyrule (3rd/lpeg/lptree.c:1103-1146) is for, stated without it: a rule may be left
 recursive when it can come back to a rule through calls made before any character is taken.
 */
module LeftCalls {
  import opened Charsets
  import opened Analysis
  import opened Semantics
  import opened Soundness
  import opened Verify

  /** A derivation, at most k calls deep, of t letting what follows it start at the same place. */
  ghost predicate Empties(g: Grammar, d: nat, k: nat, t: Tree)
    decreases k, t
  {
    match t
    case TTrue => true
    case TBehind(_, _) => true
    case TNot(_) => true
    case TAnd(_) => true
    case TRep(_) => true
    case TCapture(_, p) => Empties(g, d, k, p)
    case TSeq(p1, p2) => Empties(g, d, k, p1) && Empties(g, d, k, p2)
    case TChoice(p1, p2) => Empties(g, d, k, p1) || Empties(g, d, k, p2)
    case TCall(n) => k > 0 && n < |g| && Empties(g, d, k - 1, g[n])
    case TGrammar(_) => Nullable(g, d, t)
    case _ => false
  }

  ghost predicate CanBeEmpty(g: Grammar, d: nat, t: Tree) { exists k: nat :: Empties(g, d, k, t) }

  /** t can call rule n before it has taken a character. */
  ghost predicate LeftCall(g: Grammar, d: nat, t: Tree, n: nat) {
    match t
    case TCall(m) => m == n
    case TRep(p) => LeftCall(g, d, p, n)
    case TNot(p) => LeftCall(g, d, p, n)
    case TAnd(p) => LeftCall(g, d, p, n)
    case TCapture(_, p) => LeftCall(g, d, p, n)
    case TSeq(p1, p2) => LeftCall(g, d, p1, n) || (CanBeEmpty(g, d, p1) && LeftCall(g, d, p2, n))
    case TChoice(p1, p2) => LeftCall(g, d, p1, n) || LeftCall(g, d, p2, n)
    case _ => false
  }

  /** Rules that can be entered one inside the other, from t on, before a character is taken. */
  ghost predicate LeftPath(g: Grammar, d: nat, t: Tree, path: seq<nat>)
    decreases |path|
  {
    path == [] || (path[0] < |g| && LeftCall(g, d, t, path[0]) && LeftPath(g, d, g[path[0]], path[1..]))
  }

  /** Some rule appears twice on a left path from rule k. */
  ghost predicate LeftRecursive(g: Grammar, d: nat, k: nat)
    requires k < |g|
  {
    exists path: seq<nat>, a: nat, b: nat ::
      a < b < |path| && path[a] == path[b] && LeftPath(g, d, g[k], path)
  }

  ghost predicate AllResolved(g: Grammar) { forall k :: 0 <= k < |g| ==> Resolved(|g|, g[k]) }

  // ---- the empty string

  lemma {:induction false} EmptiesMore(g: Grammar, d: nat, k: nat, m: nat, t: Tree)
    requires Empties(g, d, k, t) && k <= m
    ensures Empties(g, d, m, t)
    decreases k, t
  {
    match t
    case TCapture(_, p) => EmptiesMore(g, d, k, m, p);
    case TSeq(p1, p2) => EmptiesMore(g, d, k, m, p1); EmptiesMore(g, d, k, m, p2);
    case TChoice(p1, p2) =>
      if Empties(g, d, k, p1) {
        EmptiesMore(g, d, k, m, p1);
      } else {
        EmptiesMore(g, d, k, m, p2);
      }
    case TCall(n) => EmptiesMore(g, d, k - 1, m - 1, g[n]);
    case _ =>
  }

  lemma EmptySeq(g: Grammar, d: nat, p1: Tree, p2: Tree)
    ensures CanBeEmpty(g, d, TSeq(p1, p2)) <==> CanBeEmpty(g, d, p1) && CanBeEmpty(g, d, p2)
  {
    if CanBeEmpty(g, d, p1) && CanBeEmpty(g, d, p2) {
      var k1: nat :| Empties(g, d, k1, p1);
      var k2: nat :| Empties(g, d, k2, p2);
      EmptiesMore(g, d, k1, Max(k1, k2), p1);
      EmptiesMore(g, d, k2, Max(k1, k2), p2);
      assert Empties(g, d, Max(k1, k2), TSeq(p1, p2));
    }
    if CanBeEmpty(g, d, TSeq(p1, p2)) {
      var k: nat :| Empties(g, d, k, TSeq(p1, p2));
      assert Empties(g, d, k, p1) && Empties(g, d, k, p2);
    }
  }

  lemma EmptyChoice(g: Grammar, d: nat, p1: Tree, p2: Tree)
    ensures CanBeEmpty(g, d, TChoice(p1, p2)) <==> CanBeEmpty(g, d, p1) || CanBeEmpty(g, d, p2)
  {
    if k: nat :| Empties(g, d, k, p1) {
      assert Empties(g, d, k, TChoice(p1, p2));
    }
    if k: nat :| Empties(g, d, k, p2) {
      assert Empties(g, d, k, TChoice(p1, p2));
    }
    if k: nat :| Empties(g, d, k, TChoice(p1, p2)) {
      assert Empties(g, d, k, p1) || Empties(g, d, k, p2);
    }
  }

  lemma EmptyCall(g: Grammar, d: nat, n: nat)
    ensures CanBeEmpty(g, d, TCall(n)) <==> n < |g| && CanBeEmpty(g, d, g[n])
  {
    if n < |g| {
      if k: nat :| Empties(g, d, k, g[n]) {
        assert Empties(g, d, k + 1, TCall(n));
      }
      if k: nat :| Empties(g, d, k, TCall(n)) {
        assert Empties(g, d, k - 1, g[n]);
      }
    }
  }

  lemma EmptyOther(g: Grammar, d: nat, t: Tree)
    requires !t.TSeq? && !t.TChoice? && !t.TCall? && !t.TCapture?
    ensures CanBeEmpty(g, d, t) <==> Empties(g, d, 0, t)
  {
  }

  lemma EmptyCapture(g: Grammar, d: nat, kind: nat, p: Tree)
    ensures CanBeEmpty(g, d, TCapture(kind, p)) <==> CanBeEmpty(g, d, p)
  {
    if k: nat :| Empties(g, d, k, p) {
      assert Empties(g, d, k, TCapture(kind, p));
    }
    if k: nat :| Empties(g, d, k, TCapture(kind, p)) {
      assert Empties(g, d, k, p);
    }
  }

  /** A verdict that t may be empty is never wrong; the corrected check's verdict is exact. */
  lemma {:induction false} VerdictExact(g: Grammar, d: nat, t: Tree, left: nat, nb: bool, fixed: bool)
    requires VerifyRule(g, d, t, left, nb, fixed).Passes?
    ensures VerifyRule(g, d, t, left, nb, fixed).nullable ==> nb || CanBeEmpty(g, d, t)
    ensures fixed && (nb || CanBeEmpty(g, d, t)) ==> VerifyRule(g, d, t, left, nb, fixed).nullable
    decreases left, t
  {
    hide CanBeEmpty;
    match t
    case TNot(p) => VerdictExact(g, d, p, left, true, fixed); EmptyOther(g, d, t);
    case TAnd(p) => VerdictExact(g, d, p, left, true, fixed); EmptyOther(g, d, t);
    case TRep(p) => VerdictExact(g, d, p, left, true, fixed); EmptyOther(g, d, t);
    case TCapture(kind, p) => VerdictExact(g, d, p, left, nb, fixed); EmptyCapture(g, d, kind, p);
    case TCall(n) => VerdictExact(g, d, g[n], left - 1, nb, fixed); EmptyCall(g, d, n);
    case TSeq(p1, p2) =>
      VerdictExact(g, d, p1, left, false, fixed);
      EmptySeq(g, d, p1, p2);
      if VerifyRule(g, d, p1, left, false, fixed).nullable {
        VerdictExact(g, d, p2, left, nb, fixed);
      }
    case TChoice(p1, p2) =>
      VerdictExact(g, d, p1, left, nb, fixed);
      VerdictExact(g, d, p2, left, VerifyRule(g, d, p1, left, nb, fixed).nullable, fixed);
      EmptyChoice(g, d, p1, p2);
    case _ => EmptyOther(g, d, t);
  }

  // ---- errors and left paths

  /** An error, of either check, is a left path longer than the rules still allowed. */
  lemma {:induction false} ErrorPath(g: Grammar, d: nat, t: Tree, left: nat, nb: bool, fixed: bool) returns (path: seq<nat>)
    requires AllResolved(g) && Resolved(|g|, t) && VerifyRule(g, d, t, left, nb, fixed).Error?
    ensures |path| == left + 1 && LeftPath(g, d, t, path)
    decreases left, t
  {
    hide CanBeEmpty;
    match t
    case TNot(p) => path := ErrorPath(g, d, p, left, true, fixed);
    case TAnd(p) => path := ErrorPath(g, d, p, left, true, fixed);
    case TRep(p) => path := ErrorPath(g, d, p, left, true, fixed);
    case TCapture(_, p) => path := ErrorPath(g, d, p, left, nb, fixed);
    case TCall(n) =>
      path := [];
      if left > 0 {
        path := ErrorPath(g, d, g[n], left - 1, nb, fixed);
      }
      assert ([n] + path)[1..] == path;
      path := [n] + path;
    case TSeq(p1, p2) =>
      if VerifyRule(g, d, p1, left, false, fixed).Error? {
        path := ErrorPath(g, d, p1, left, false, fixed);
      } else {
        VerdictExact(g, d, p1, left, false, fixed);
        path := ErrorPath(g, d, p2, left, nb, fixed);
      }
    case TChoice(p1, p2) =>
      var v := VerifyRule(g, d, p1, left, nb, fixed);
      if v.Error? {
        path := ErrorPath(g, d, p1, left, nb, fixed);
      } else {
        path := ErrorPath(g, d, p2, left, v.nullable, fixed);
      }
  }

  /** A left path longer than the rules still allowed is an error of the corrected check. */
  lemma {:induction false} PathError(g: Grammar, d: nat, t: Tree, left: nat, nb: bool, path: seq<nat>)
    requires |path| == left + 1 && LeftPath(g, d, t, path)
    ensures VerifyRule(g, d, t, left, nb, true).Error?
    decreases left, t
  {
    hide CanBeEmpty;
    match t
    case TNot(p) => PathError(g, d, p, left, true, path);
    case TAnd(p) => PathError(g, d, p, left, true, path);
    case TRep(p) => PathError(g, d, p, left, true, path);
    case TCapture(_, p) => PathError(g, d, p, left, nb, path);
    case TCall(n) =>
      if left > 0 {
        PathError(g, d, g[n], left - 1, nb, path[1..]);
      }
    case TSeq(p1, p2) =>
      if LeftCall(g, d, p1, path[0]) {
        PathError(g, d, p1, left, false, path);
      } else if VerifyRule(g, d, p1, left, false, true).Passes? {
        VerdictExact(g, d, p1, left, false, true);
        PathError(g, d, p2, left, nb, path);
      }
    case TChoice(p1, p2) =>
      if LeftCall(g, d, p1, path[0]) {
        PathError(g, d, p1, left, nb, path);
      } else {
        PathError(g, d, p2, left, VerifyNullable(g, d, p1, left, nb), path);
      }
    case _ =>
  }

  ghost function VerifyNullable(g: Grammar, d: nat, t: Tree, left: nat, nb: bool): bool {
    var v := VerifyRule(g, d, t, left, nb, true);
    v.Passes? && v.nullable
  }

  // ---- long paths and cycles

  ghost function Last(g: Grammar, t: Tree, path: seq<nat>): Tree {
    if path == [] then t else if path[|path| - 1] < |g| then g[path[|path| - 1]] else TFalse
  }

  lemma {:induction false} PathAppend(g: Grammar, d: nat, t: Tree, p: seq<nat>, q: seq<nat>)
    ensures LeftPath(g, d, t, p + q) <==> LeftPath(g, d, t, p) && LeftPath(g, d, Last(g, t, p), q)
    decreases |p|
  {
    if p == [] {
      assert p + q == q;
    } else {
      assert (p + q)[1..] == p[1..] + q;
      if p[0] < |g| {
        PathAppend(g, d, g[p[0]], p[1..], q);
        assert Last(g, g[p[0]], p[1..]) == Last(g, t, p);
      }
    }
  }

  lemma PathSplit(g: Grammar, d: nat, t: Tree, path: seq<nat>, a: nat)
    requires a <= |path|
    ensures LeftPath(g, d, t, path) <==> LeftPath(g, d, t, path[..a]) && LeftPath(g, d, Last(g, t, path[..a]), path[a..])
  {
    PathAppend(g, d, t, path[..a], path[a..]);
    assert path[..a] + path[a..] == path;
  }

  lemma {:induction false} PathRules(g: Grammar, d: nat, t: Tree, path: seq<nat>)
    requires LeftPath(g, d, t, path)
    ensures forall i :: 0 <= i < |path| ==> path[i] < |g|
    decreases |path|
  {
    if path != [] {
      PathRules(g, d, g[path[0]], path[1..]);
      forall i | 0 <= i < |path| ensures path[i] < |g| {
        assert i > 0 ==> path[i] == path[1..][i - 1];
      }
    }
  }

  /** Going round a cycle makes a path of any length. */
  lemma {:induction false} GoRound(g: Grammar, d: nat, t: Tree, path: seq<nat>, cycle: seq<nat>, n: nat) returns (long: seq<nat>)
    requires path != [] && cycle != [] && path[|path| - 1] == cycle[|cycle| - 1] < |g|
    requires LeftPath(g, d, t, path) && LeftPath(g, d, Last(g, t, path), cycle)
    ensures |long| == n && LeftPath(g, d, t, long)
    decreases n - |path|
  {
    if |path| >= n {
      PathSplit(g, d, t, path, n);
      long := path[..n];
    } else {
      PathAppend(g, d, t, path, cycle);
      assert Last(g, t, path + cycle) == Last(g, t, path);
      long := GoRound(g, d, t, path + cycle, cycle, n);
    }
  }

  lemma {:induction false} BelowSize(n: nat)
    ensures |Below(n)| == n
  {
    if n > 0 {
      BelowSize(n - 1);
    }
  }

  /** More than n entries below n cannot all differ. */
  lemma Repeats(path: seq<nat>, n: nat) returns (a: nat, b: nat)
    requires |path| > n && forall i :: 0 <= i < |path| ==> path[i] < n
    ensures a < b < |path| && path[a] == path[b]
  {
    if forall i, j :: 0 <= i < j < |path| ==> path[i] != path[j] {
      DistinctFit(path, n);
      assert false;
    } else {
      a, b :| 0 <= a < b < |path| && path[a] == path[b];
    }
  }

  lemma DistinctFit(path: seq<nat>, n: nat)
    requires forall i, j :: 0 <= i < j < |path| ==> path[i] != path[j]
    requires forall i :: 0 <= i < |path| ==> path[i] < n
    ensures |path| <= n
  {
    Distinct(path);
    BelowSize(n);
    var seen := set i | 0 <= i < |path| :: path[i];
    assert Below(n) == seen + (Below(n) - seen);
  }

  lemma {:induction false} Distinct(path: seq<nat>)
    requires forall i, j :: 0 <= i < j < |path| ==> path[i] != path[j]
    ensures |set i | 0 <= i < |path| :: path[i]| == |path|
  {
    if path != [] {
      var rest := path[..|path| - 1];
      Distinct(rest);
      assert (set i | 0 <= i < |path| :: path[i]) == (set i | 0 <= i < |rest| :: rest[i]) + {path[|path| - 1]};
    }
  }

  /** In a grammar of at most as many rules as may be passed, long left paths are cycles. */
  lemma LongIsCycle(g: Grammar, d: nat, k: nat)
    requires k < |g| <= MAX_RULES
    ensures LeftRecursive(g, d, k) <==> exists path: seq<nat> :: |path| == MAX_RULES + 1 && LeftPath(g, d, g[k], path)
  {
    if path: seq<nat> :| |path| == MAX_RULES + 1 && LeftPath(g, d, g[k], path) {
      PathRules(g, d, g[k], path);
      var a, b := Repeats(path, |g|);
      assert LeftRecursive(g, d, k);
    }
    if LeftRecursive(g, d, k) {
      var path: seq<nat>, a: nat, b: nat :|
        a < b < |path| && path[a] == path[b] && LeftPath(g, d, g[k], path);
      PathRules(g, d, g[k], path);
      PathSplit(g, d, g[k], path, b + 1);
      var start, cycle := path[..a + 1], path[a + 1..b + 1];
      PathSplit(g, d, g[k], path[..b + 1], a + 1);
      assert path[..b + 1][..a + 1] == start && path[..b + 1][a + 1..] == cycle;
      var long := GoRound(g, d, g[k], start, cycle, MAX_RULES + 1);
    }
  }

  // ---- the results

  /** The corrected verifyrule raises its error exactly on the rules that may be left recursive. */
  lemma ErrsExactly(g: Grammar, d: nat, k: nat)
    requires k < |g| <= MAX_RULES && AllResolved(g)
    ensures VerifyRule(g, d, g[k], MAX_RULES, false, true).Error? <==> LeftRecursive(g, d, k)
  {
    LongIsCycle(g, d, k);
    if VerifyRule(g, d, g[k], MAX_RULES, false, true).Error? {
      var path := ErrorPath(g, d, g[k], MAX_RULES, false, true);
    }
    if LeftRecursive(g, d, k) {
      var path: seq<nat> :| |path| == MAX_RULES + 1 && LeftPath(g, d, g[k], path);
      PathError(g, d, g[k], MAX_RULES, false, path);
    }
  }

  /** The source's verifyrule raises no false alarm. */
  lemma NoFalseAlarm(g: Grammar, d: nat, k: nat)
    requires k < |g| <= MAX_RULES && AllResolved(g) && VerifyRule(g, d, g[k], MAX_RULES, false, false).Error?
    ensures LeftRecursive(g, d, k)
  {
    var path := ErrorPath(g, d, g[k], MAX_RULES, false, false);
    LongIsCycle(g, d, k);
  }

  /** A left recursion the source's verifyrule misses is hidden behind a nested grammar. */
  lemma MissedHidden(g: Grammar, d: nat, k: nat)
    requires k < |g| <= MAX_RULES && AllResolved(g) && LeftRecursive(g, d, k)
    ensures VerifyRule(g, d, g[k], MAX_RULES, false, false).Error? || !KeepsFlag(g, d, g[k], MAX_RULES, false)
  {
    ErrsExactly(g, d, k);
    if KeepsFlag(g, d, g[k], MAX_RULES, false) {
      KeepsFlagAgrees(g, d, g[k], MAX_RULES, false);
    }
  }

  /** What an accepted grammar lacks: exactly that no left recursion was missed. */
  lemma AcceptedExactly(g: Grammar, d: nat)
    requires |g| <= MAX_RULES && AllResolved(g)
    ensures AcceptedFixed(g, d) <==>
            Accepted(g, d) && forall k :: 0 <= k < |g| && Used(g, k) ==> !LeftRecursive(g, d, k)
  {
    forall k | 0 <= k < |g| && Used(g, k)
      ensures VerifyRule(g, d, g[k], MAX_RULES, false, true).Error? <==> LeftRecursive(g, d, k)
      ensures VerifyRule(g, d, g[k], MAX_RULES, false, false).Error? ==> LeftRecursive(g, d, k)
    {
      ErrsExactly(g, d, k);
      if VerifyRule(g, d, g[k], MAX_RULES, false, false).Error? {
        NoFalseAlarm(g, d, k);
      }
    }
  }
}
