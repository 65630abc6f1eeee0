/**
 LPeg pattern trees (3rd/lpeg/lptree.h:14) and the static analyses the code generator relies
 on (3rd/lpeg/lpcode.c:30-345).
 */
module Analysis {
  import opened Common
  import opened Charsets

  /** A grammar node owns its rules; TCall names a rule of the innermost enclosing grammar. */
  datatype Tree =
    | TChar(c: Byte)
    | TSet(cs: Charset)
    | TAny
    | TTrue
    | TFalse
    | TRep(p: Tree)
    | TSeq(p1: Tree, p2: Tree)
    | TChoice(p1: Tree, p2: Tree)
    | TNot(p: Tree)
    | TAnd(p: Tree)
    | TBehind(n: nat, p: Tree)
    | TCapture(kind: nat, p: Tree)
    | TCall(rule: nat)
    | TGrammar(rules: seq<Tree>)

  type Grammar = seq<Tree>

  const MAX_BEHIND := 255
  const MAX_OFF := 15

  function Max(a: nat, b: nat): nat { if a < b then b else a }

  /** How deep grammars are nested inside a tree; a termination measure. */
  ghost function Nest(t: Tree): nat
    decreases t, 1
  {
    match t
    case TRep(p) => Nest(p)
    case TSeq(p1, p2) => Max(Nest(p1), Nest(p2))
    case TChoice(p1, p2) => Max(Nest(p1), Nest(p2))
    case TNot(p) => Nest(p)
    case TAnd(p) => Nest(p)
    case TBehind(_, p) => Nest(p)
    case TCapture(_, p) => Nest(p)
    case TGrammar(rules) => 1 + NestAll(rules)
    case _ => 0
  }

  ghost function NestAll(g: Grammar): (n: nat)
    ensures forall k :: 0 <= k < |g| ==> Nest(g[k]) <= n
    decreases g, 0
  {
    if |g| == 0 then 0 else Max(Nest(g[0]), NestAll(g[1..]))
  }

  predicate IsCharset(t: Tree) { t.TChar? || t.TSet? || t.TAny? || t.TFalse? }

  /** tocharset: the set of a pattern that always takes exactly one character of it. */
  function ToCharset(t: Tree): Charset
    requires IsCharset(t)
  {
    match t
    case TChar(c) => Single(c)
    case TSet(cs) => cs
    case TAny => FullSet()
    case TFalse => EmptySet()
  }

  ghost function Below(n: nat): (r: set<nat>)
    ensures forall k: nat :: k in r <==> k < n
  {
    if n == 0 then {} else Below(n - 1) + {n - 1}
  }

  /** Rules of g that are not in seen: what the recursive queries below may still enter. */
  ghost function Unseen(g: Grammar, seen: set<nat>): set<nat> { Below(|g|) - seen }

  /** hascaptures: a call back into a rule on the current path adds nothing. */
  predicate HasCaptures(g: Grammar, seen: set<nat>, t: Tree)
    decreases Max(Nest(t), NestAll(g)), Unseen(g, seen), t
  {
    match t
    case TCapture(_, _) => true
    case TRep(p) => HasCaptures(g, seen, p)
    case TSeq(p1, p2) => HasCaptures(g, seen, p1) || HasCaptures(g, seen, p2)
    case TChoice(p1, p2) => HasCaptures(g, seen, p1) || HasCaptures(g, seen, p2)
    case TNot(p) => HasCaptures(g, seen, p)
    case TAnd(p) => HasCaptures(g, seen, p)
    case TBehind(_, p) => HasCaptures(g, seen, p)
    case TCall(n) => n < |g| && n !in seen && HasCaptures(g, seen + {n}, g[n])
    case TGrammar(rules) => |rules| > 0 && HasCaptures(rules, {}, rules[0])
    case _ => false
  }

  /** fixedlen: the number of characters every match takes, or -1 if it varies or recurs. */
  function FixedLen(g: Grammar, seen: set<nat>, t: Tree): (n: int)
    ensures n >= -1
    decreases Max(Nest(t), NestAll(g)), Unseen(g, seen), t
  {
    match t
    case TChar(_) => 1
    case TSet(_) => 1
    case TAny => 1
    case TTrue => 0
    case TFalse => 0
    case TNot(_) => 0
    case TAnd(_) => 0
    case TBehind(_, _) => 0
    case TRep(_) => -1
    case TCapture(_, p) => FixedLen(g, seen, p)
    case TSeq(p1, p2) =>
      var n1 := FixedLen(g, seen, p1);
      var n2 := FixedLen(g, seen, p2);
      if n1 < 0 || n2 < 0 then -1 else n1 + n2
    case TChoice(p1, p2) =>
      var n1 := FixedLen(g, seen, p1);
      var n2 := FixedLen(g, seen, p2);
      if n1 != n2 then -1 else n1
    case TCall(n) => if n >= |g| || n in seen then -1 else FixedLen(g, seen + {n}, g[n])
    case TGrammar(rules) => if |rules| == 0 then -1 else FixedLen(rules, {}, rules[0])
  }

  datatype Question = PEnullable | PEnofail

  /**
   checkaux: may the pattern match the empty string (PEnullable), must it always match
   (PEnofail)? The source follows calls without a bound; here d bounds them and the
   answer beyond it is the conservative one.
   */
  predicate CheckAux(g: Grammar, d: nat, t: Tree, q: Question)
    decreases d, t
  {
    match t
    case TTrue => true
    case TRep(_) => true
    case TNot(_) => q.PEnullable?
    case TBehind(_, _) => q.PEnullable?
    case TAnd(p) => q.PEnullable? || CheckAux(g, d, p, q)
    case TSeq(p1, p2) => CheckAux(g, d, p1, q) && CheckAux(g, d, p2, q)
    case TChoice(p1, p2) => CheckAux(g, d, p2, q) || CheckAux(g, d, p1, q)
    case TCapture(_, p) => CheckAux(g, d, p, q)
    case TCall(n) => if d == 0 || n >= |g| then q.PEnullable? else CheckAux(g, d - 1, g[n], q)
    case TGrammar(rules) => if |rules| == 0 then q.PEnullable? else CheckAux(rules, d, rules[0], q)
    case _ => false
  }

  predicate Nullable(g: Grammar, d: nat, t: Tree) { CheckAux(g, d, t, PEnullable) }

  predicate NoFail(g: Grammar, d: nat, t: Tree) { CheckAux(g, d, t, PEnofail) }

  /** First characters, and whether a test on them must let the empty subject through. */
  datatype First = First(set_: Charset, empty: bool)

  /** getfirst: the characters that can start a match of t when what follows starts in follow. */
  function GetFirst(g: Grammar, d: nat, t: Tree, follow: Charset): First
    decreases d, t
  {
    match t
    case TTrue => First(follow, true)
    case TRep(p) => First(Union(GetFirst(g, d, p, follow).set_, follow), true)
    case TChoice(p1, p2) =>
      var f1, f2 := GetFirst(g, d, p1, follow), GetFirst(g, d, p2, follow);
      First(Union(f1.set_, f2.set_), f1.empty || f2.empty)
    case TSeq(p1, p2) =>
      if !Nullable(g, d, p1) then GetFirst(g, d, p1, FullSet())
      else
        var f2 := GetFirst(g, d, p2, follow);
        var f1 := GetFirst(g, d, p1, f2.set_);
        First(f1.set_, f1.empty && f2.empty)
    case TCapture(_, p) => GetFirst(g, d, p, follow)
    case TAnd(p) =>
      var f := GetFirst(g, d, p, follow);
      First(Intersect(f.set_, follow), f.empty)
    case TNot(p) =>
      if IsCharset(p) then First(Complement(ToCharset(p)), true) else First(follow, true)
    case TBehind(_, _) => First(follow, true)
    case TCall(n) => if d == 0 || n >= |g| then First(FullSet(), true) else GetFirst(g, d - 1, g[n], follow)
    case TGrammar(rules) => if |rules| == 0 then First(FullSet(), true) else GetFirst(rules, d, rules[0], follow)
    case _ => First(ToCharset(t), false)
  }

  /** headfail: the pattern can only fail because of the next character. */
  predicate HeadFail(g: Grammar, d: nat, t: Tree)
    decreases d, t
  {
    match t
    case TChar(_) => true
    case TSet(_) => true
    case TAny => true
    case TFalse => true
    case TCapture(_, p) => HeadFail(g, d, p)
    case TAnd(p) => HeadFail(g, d, p)
    case TSeq(p1, p2) => NoFail(g, d, p2) && HeadFail(g, d, p1)
    case TChoice(p1, p2) => HeadFail(g, d, p1) && HeadFail(g, d, p2)
    case TCall(n) => d > 0 && n < |g| && HeadFail(g, d - 1, g[n])
    case TGrammar(rules) => |rules| > 0 && HeadFail(rules, d, rules[0])
    case _ => false
  }

  /** needfollow: can the code for this pattern make use of a follow set? */
  predicate NeedFollow(t: Tree) {
    match t
    case TChoice(_, _) => true
    case TRep(_) => true
    case TCapture(_, p) => NeedFollow(p)
    case TSeq(_, p2) => NeedFollow(p2)
    case _ => false
  }

  /** The rules that tree t calls by number; a nested grammar has numbers of its own. */
  ghost function Calls(t: Tree): set<nat> {
    match t
    case TRep(p) => Calls(p)
    case TSeq(p1, p2) => Calls(p1) + Calls(p2)
    case TChoice(p1, p2) => Calls(p1) + Calls(p2)
    case TNot(p) => Calls(p)
    case TAnd(p) => Calls(p)
    case TBehind(_, p) => Calls(p)
    case TCapture(_, p) => Calls(p)
    case TCall(n) => {n}
    case _ => {}
  }

  /** finalfix: every call, used or not, names one of the n rules of its grammar. */
  ghost predicate Resolved(n: nat, t: Tree)
    decreases t
  {
    match t
    case TRep(p) => Resolved(n, p)
    case TSeq(p1, p2) => Resolved(n, p1) && Resolved(n, p2)
    case TChoice(p1, p2) => Resolved(n, p1) && Resolved(n, p2)
    case TNot(p) => Resolved(n, p)
    case TAnd(p) => Resolved(n, p)
    case TBehind(_, p) => Resolved(n, p)
    case TCapture(_, p) => Resolved(n, p)
    case TCall(m) => m < n
    case TGrammar(rules) => forall k :: 0 <= k < |rules| ==> Resolved(|rules|, rules[k])
    case _ => true
  }

  /** Rules with a key: the initial one and every rule some rule calls. */
  ghost predicate Used(g: Grammar, n: nat) {
    n < |g| && (n == 0 || exists k :: 0 <= k < |g| && n in Calls(g[k]))
  }

  /**
   Trees that tree building accepts: lp_star and checkloops refuse a nullable loop body,
   lp_behind asks for a short fixed length and no captures, finalfix resolves every call.
   Rules nobody calls are not checked.
   */
  ghost predicate WellFormed(g: Grammar, d: nat, t: Tree)
    decreases t
  {
    match t
    case TRep(p) => WellFormed(g, d, p) && !Nullable(g, d, p)
    case TSeq(p1, p2) => WellFormed(g, d, p1) && WellFormed(g, d, p2)
    case TChoice(p1, p2) => WellFormed(g, d, p1) && WellFormed(g, d, p2)
    case TNot(p) => WellFormed(g, d, p)
    case TAnd(p) => WellFormed(g, d, p)
    case TBehind(n, p) =>
      WellFormed(g, d, p) && n == FixedLen(g, {}, p) && n <= MAX_BEHIND && !HasCaptures(g, {}, p)
    case TCapture(_, p) => WellFormed(g, d, p)
    case TCall(n) => Used(g, n)
    case TGrammar(rules) =>
      |rules| > 0 &&
      (forall k :: 0 <= k < |rules| ==> Resolved(|rules|, rules[k])) &&
      forall k :: 0 <= k < |rules| && Used(rules, k) ==> WellFormed(rules, d, rules[k])
    case _ => true
  }

  ghost predicate WellFormedRules(g: Grammar, d: nat) {
    forall k :: 0 <= k < |g| && Used(g, k) ==> WellFormed(g, d, g[k])
  }
}
