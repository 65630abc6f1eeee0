/**
 What LPeg patterns mean: parsing expressions evaluated at a position of the subject. The
 first argument bounds rule calls and repetition turns; Out says the bound was reached.
 */
module Semantics {
  import opened Charsets
  import opened Analysis

  /** One entry of the capture list. */
  datatype Capture =
    | Open(kind: nat, pos: nat)
    | Close(pos: nat)
    | Full(kind: nat, pos: nat, len: nat)

  datatype Result = Out | Fail | Match(pos: nat, caps: seq<Capture>)

  function Append(caps: seq<Capture>, r: Result): Result {
    if r.Match? then Match(r.pos, caps + r.caps) else r
  }

  function OneChar(s: Subject, i: nat, ok: bool): Result {
    if i < |s| && ok then Match(i + 1, []) else Fail
  }

  /** The body of this capture can be recorded by one entry made after the match. */
  predicate ShortBody(g: Grammar, p: Tree) {
    0 <= FixedLen(g, {}, p) <= MAX_OFF && !HasCaptures(g, {}, p)
  }

  /**
   The meaning of t at position i of s, inside grammar g. Captures are recorded as an open
   and a close entry; with packed, short ones without captures inside get a single entry.
   */
  function Eval(fuel: nat, g: Grammar, t: Tree, s: Subject, i: nat, packed: bool): (r: Result)
    requires i <= |s|
    ensures r.Match? ==> r.pos <= |s|
    decreases fuel, t
  {
    match t
    case TChar(c) => OneChar(s, i, i < |s| && s[i] == c)
    case TSet(cs) => OneChar(s, i, i < |s| && cs[s[i]])
    case TAny => OneChar(s, i, true)
    case TTrue => Match(i, [])
    case TFalse => Fail
    case TRep(p) =>
      var r := Eval(fuel, g, p, s, i, packed);
      if r.Out? then Out
      else if r.Fail? then Match(i, [])
      else if fuel == 0 then Out
      else Append(r.caps, Eval(fuel - 1, g, t, s, r.pos, packed))
    case TSeq(p1, p2) =>
      var r := Eval(fuel, g, p1, s, i, packed);
      if r.Match? then Append(r.caps, Eval(fuel, g, p2, s, r.pos, packed)) else r
    case TChoice(p1, p2) =>
      var r := Eval(fuel, g, p1, s, i, packed);
      if r.Fail? then Eval(fuel, g, p2, s, i, packed) else r
    case TNot(p) =>
      var r := Eval(fuel, g, p, s, i, packed);
      if r.Out? then Out else if r.Fail? then Match(i, []) else Fail
    case TAnd(p) =>
      var r := Eval(fuel, g, p, s, i, packed);
      if r.Match? then Match(i, []) else r
    case TBehind(n, p) =>
      if n > i then Fail
      else
        var r := Eval(fuel, g, p, s, i - n, packed);
        if r.Match? then Match(i, []) else r
    case TCapture(kind, p) =>
      var r := Eval(fuel, g, p, s, i, packed);
      if !r.Match? then r
      else if packed && ShortBody(g, p) then
        Match(r.pos, r.caps + [Full(kind, i, if i <= r.pos then r.pos - i else 0)])
      else Match(r.pos, [Open(kind, i)] + r.caps + [Close(r.pos)])
    case TCall(n) =>
      if fuel == 0 || n >= |g| then Out else Eval(fuel - 1, g, g[n], s, i, packed)
    case TGrammar(rules) =>
      if |rules| == 0 then Out else Eval(fuel, rules, rules[0], s, i, packed)
  }

  /** A larger bound never changes an answer. */
  lemma {:induction false} EvalMonotone(f1: nat, f2: nat, g: Grammar, t: Tree, s: Subject, i: nat, packed: bool)
    requires i <= |s| && f1 <= f2
    requires !Eval(f1, g, t, s, i, packed).Out?
    ensures Eval(f2, g, t, s, i, packed) == Eval(f1, g, t, s, i, packed)
    decreases f1, t
  {
    match t
    case TRep(p) =>
      EvalMonotone(f1, f2, g, p, s, i, packed);
      var r := Eval(f1, g, p, s, i, packed);
      if r.Match? {
        EvalMonotone(f1 - 1, f2 - 1, g, t, s, r.pos, packed);
      }
    case TSeq(p1, p2) =>
      EvalMonotone(f1, f2, g, p1, s, i, packed);
      var r := Eval(f1, g, p1, s, i, packed);
      if r.Match? {
        EvalMonotone(f1, f2, g, p2, s, r.pos, packed);
      }
    case TChoice(p1, p2) =>
      EvalMonotone(f1, f2, g, p1, s, i, packed);
      if Eval(f1, g, p1, s, i, packed).Fail? {
        EvalMonotone(f1, f2, g, p2, s, i, packed);
      }
    case TNot(p) => EvalMonotone(f1, f2, g, p, s, i, packed);
    case TAnd(p) => EvalMonotone(f1, f2, g, p, s, i, packed);
    case TBehind(n, p) =>
      if n <= i {
        EvalMonotone(f1, f2, g, p, s, i - n, packed);
      }
    case TCapture(_, p) => EvalMonotone(f1, f2, g, p, s, i, packed);
    case TCall(n) => EvalMonotone(f1 - 1, f2 - 1, g, g[n], s, i, packed);
    case TGrammar(rules) => EvalMonotone(f1, f2, rules, rules[0], s, i, packed);
    case _ =>
  }

  /** No pattern moves backwards, not even look-behind. */
  lemma {:induction false} EvalAdvances(fuel: nat, g: Grammar, t: Tree, s: Subject, i: nat, packed: bool)
    requires i <= |s|
    ensures var r := Eval(fuel, g, t, s, i, packed); r.Match? ==> i <= r.pos
    decreases fuel, t
  {
    match t
    case TRep(p) =>
      EvalAdvances(fuel, g, p, s, i, packed);
      var r := Eval(fuel, g, p, s, i, packed);
      if r.Match? && fuel > 0 {
        EvalAdvances(fuel - 1, g, t, s, r.pos, packed);
      }
    case TSeq(p1, p2) =>
      EvalAdvances(fuel, g, p1, s, i, packed);
      var r := Eval(fuel, g, p1, s, i, packed);
      if r.Match? {
        EvalAdvances(fuel, g, p2, s, r.pos, packed);
      }
    case TChoice(p1, p2) =>
      EvalAdvances(fuel, g, p1, s, i, packed);
      EvalAdvances(fuel, g, p2, s, i, packed);
    case TCapture(_, p) => EvalAdvances(fuel, g, p, s, i, packed);
    case TCall(n) =>
      if fuel > 0 && n < |g| {
        EvalAdvances(fuel - 1, g, g[n], s, i, packed);
      }
    case TGrammar(rules) =>
      if |rules| > 0 {
        EvalAdvances(fuel, rules, rules[0], s, i, packed);
      }
    case _ =>
  }
}
