/**
 The results about LPeg: compile (3rd/lpeg/lpcode.c:1038) followed by match
 (3rd/lpeg/lpvm.c:201) computes what the pattern means, for every pattern that tree
 building accepts and every subject.
 */
module Lpeg {
  import opened Charsets
  import opened Analysis
  import opened Semantics
  import opened Soundness
  import opened Machine
  import opened CodeGen
  import opened Placement
  import opened Correctness
  import opened Peephole
  import opened Verify
  import opened LeftCalls
  import opened Safety

  /** compile: emit, add the end instruction, optimise the jumps. */
  function Compile(d: nat, t: Tree): Code { Optimized(WholeCode(d, t), 0) }

  /**
   A complete pattern built by the library, outside any grammar, whose nested grammars are free
   of left recursion and whose look-behinds make no calls.
   */
  ghost predicate Built(d: nat, t: Tree) { WellFormed([], d, t) && PartsAccepted(d, t) }

  /** Accepted by the source, of a size it allows, and without a left recursion it missed. */
  ghost predicate Checked(g: Grammar, d: nat) {
    |g| <= MAX_RULES && AllResolved(g) && Accepted(g, d) &&
    forall k :: 0 <= k < |g| && Used(g, k) ==> !LeftRecursive(g, d, k)
  }

  /** Accepted by the source without its flag being lost in a rule. */
  ghost predicate Flagged(g: Grammar, d: nat) {
    Accepted(g, d) && forall k :: 0 <= k < |g| && Used(g, k) ==> KeepsFlag(g, d, g[k], MAX_RULES, false)
  }

  lemma CheckedParts(d: nat, t: Tree)
    requires PartsAre((g: Grammar) => Checked(g, d), t)
    ensures PartsAccepted(d, t)
  {
    forall g | Checked(g, d) ensures AcceptedFixed(g, d) {
      AcceptedExactly(g, d);
    }
    PartsMore((g: Grammar) => Checked(g, d), (g: Grammar) => AcceptedFixed(g, d), t);
  }

  lemma FlaggedParts(d: nat, t: Tree)
    requires PartsAre((g: Grammar) => Flagged(g, d), t)
    ensures PartsAccepted(d, t)
  {
    forall g | Flagged(g, d) ensures AcceptedFixed(g, d) {
      AcceptedFlagged(g, d);
    }
    PartsMore((g: Grammar) => Flagged(g, d), (g: Grammar) => AcceptedFixed(g, d), t);
  }

  /** The compiled code of a well-formed pattern gives what the pattern means. */
  lemma CompileCorrect(d: nat, t: Tree, s: Subject, i: nat, fuel: nat)
    requires WellFormed([], d, t) && i <= |s| && !Eval(fuel, [], t, s, i, true).Out?
    ensures Halts(Compile(d, t), s, Start(i), OutcomeOf(Eval(fuel, [], t, s, i, true)))
  {
    CodeCorrect(d, t, s, i, fuel);
    WholeCodeWhole(d, t);
    PeepholeSound(WholeCode(d, t), 0, s, i, OutcomeOf(Eval(fuel, [], t, s, i, true)));
  }

  /** The meaning of a built pattern is defined everywhere, and one bound gives it. */
  lemma MatchEnds(d: nat, t: Tree, s: Subject, i: nat) returns (fuel: nat)
    requires Built(d, t) && i <= |s|
    ensures !Eval(fuel, [], t, s, i, true).Out?
  {
    CallsUsed([], d, t);
    FreshStart([], d, t, false);
    fuel := Terminates([], d, t, MAX_RULES + 1, false, s, i, true);
  }

  /** A captures list with every packed entry written as an open and a close. */
  function Unpack(caps: seq<Capture>): seq<Capture> {
    if |caps| == 0 then []
    else (if caps[0].Full? then [Open(caps[0].kind, caps[0].pos), Close(caps[0].pos + caps[0].len)] else [caps[0]])
         + Unpack(caps[1..])
  }

  lemma {:induction false} UnpackAppend(a: seq<Capture>, b: seq<Capture>)
    ensures Unpack(a + b) == Unpack(a) + Unpack(b)
  {
    if |a| == 0 {
      assert a + b == b;
    } else {
      assert (a + b)[1..] == a[1..] + b;
      UnpackAppend(a[1..], b);
    }
  }

  ghost predicate SameMatch(packed: Result, plain: Result) {
    (packed.Out? <==> plain.Out?) && (packed.Match? <==> plain.Match?) &&
    (packed.Match? ==> packed.pos == plain.pos && Unpack(packed.caps) == plain.caps)
  }

  /** Recording short captures in one entry loses nothing. */
  lemma {:induction false} PackingSound(fuel: nat, g: Grammar, t: Tree, s: Subject, i: nat)
    requires i <= |s|
    ensures SameMatch(Eval(fuel, g, t, s, i, true), Eval(fuel, g, t, s, i, false))
    decreases fuel, t
  {
    match t
    case TRep(p) =>
      PackingSound(fuel, g, p, s, i);
      var r := Eval(fuel, g, p, s, i, true);
      if r.Match? && fuel > 0 {
        PackingSound(fuel - 1, g, t, s, r.pos);
        var again := Eval(fuel - 1, g, t, s, r.pos, true);
        if again.Match? {
          UnpackAppend(r.caps, again.caps);
        }
      }
    case TSeq(p1, p2) =>
      PackingSound(fuel, g, p1, s, i);
      var r := Eval(fuel, g, p1, s, i, true);
      if r.Match? {
        PackingSound(fuel, g, p2, s, r.pos);
        var rest := Eval(fuel, g, p2, s, r.pos, true);
        if rest.Match? {
          UnpackAppend(r.caps, rest.caps);
        }
      }
    case TChoice(p1, p2) => PackingSound(fuel, g, p1, s, i); PackingSound(fuel, g, p2, s, i);
    case TNot(p) => PackingSound(fuel, g, p, s, i);
    case TAnd(p) => PackingSound(fuel, g, p, s, i);
    case TBehind(n, p) =>
      if n <= i {
        PackingSound(fuel, g, p, s, i - n);
      }
    case TCapture(kind, p) =>
      PackingSound(fuel, g, p, s, i);
      var r := Eval(fuel, g, p, s, i, true);
      if r.Match? {
        if ShortBody(g, p) {
          CapturesSound(fuel, g, p, s, i, true);
          EvalAdvances(fuel, g, p, s, i, true);
        } else {
          UnpackAppend([Open(kind, i)] + r.caps, [Close(r.pos)]);
          UnpackAppend([Open(kind, i)], r.caps);
        }
      }
    case TCall(n) =>
      if fuel > 0 && n < |g| {
        PackingSound(fuel - 1, g, g[n], s, i);
      }
    case TGrammar(rules) =>
      if |rules| > 0 {
        PackingSound(fuel, rules, rules[0], s, i);
      }
    case _ =>
  }

  /** The outcome, as a user of the library sees it: where the match ends and what it captured. */
  ghost predicate Agrees(out: Outcome, plain: Result) {
    match plain
    case Out => false
    case Fail => out == NoMatch
    case Match(pos, caps) => out.Matched? && out.pos == pos && Unpack(out.caps) == caps
  }

  /**
   lpeg.match is correct: on every subject and from every position, the compiled code of a
   built pattern stops, with the end position and the captures that the pattern means.
   */
  lemma MatchCorrect(d: nat, t: Tree, s: Subject, i: nat) returns (fuel: nat, out: Outcome)
    requires Built(d, t) && i <= |s|
    ensures Halts(Compile(d, t), s, Start(i), out) && Agrees(out, Eval(fuel, [], t, s, i, false))
  {
    fuel := MatchEnds(d, t, s, i);
    var r := Eval(fuel, [], t, s, i, true);
    CompileCorrect(d, t, s, i, fuel);
    PackingSound(fuel, [], t, s, i);
    out := OutcomeOf(r);
  }

  /**
   No run of compiled code violates an assertion of the interpreter or leaves the instructions,
   even of a grammar whose matching never ends.
   */
  lemma NeverStuck(d: nat, t: Tree, s: Subject, i: nat, n: nat)
    requires WellFormed([], d, t) && i <= |s|
    ensures Steps(Compile(d, t), s, Start(i), n) != Stuck
  {
    hide Gen, Steps;
    forall k: nat ensures Steps(WholeCode(d, t), s, Start(i), k) != Stuck {
      CodeSafe(d, t, s, i, k);
    }
    WholeCodeWhole(d, t);
    PeepholeSafe(WholeCode(d, t), 0, s, i);
    assert StuckFree(Compile(d, t), s, Start(i));
  }

  lemma WholeCodeWhole(d: nat, t: Tree)
    requires WellFormed([], d, t)
    ensures Whole(WholeCode(d, t), 0)
  {
    WellFormedResolved(0, d, t);
    GenFine([], d, t, false, NoTest, FullSet(), 0);
    FinePlain(IEnd, 0);
    FineAppend(Gen([], d, t, false, NoTest, FullSet()), [IEnd], 0);
  }

  /** Acceptance by the source does mean termination when the flag is kept in every used rule. */
  lemma AcceptedFlagged(g: Grammar, d: nat)
    requires Accepted(g, d)
    requires forall k :: 0 <= k < |g| && Used(g, k) ==> KeepsFlag(g, d, g[k], MAX_RULES, false)
    ensures AcceptedFixed(g, d)
  {
    forall k | 0 <= k < |g| && Used(g, k) ensures !VerifyRule(g, d, g[k], MAX_RULES, false, true).Error? {
      KeepsFlagAgrees(g, d, g[k], MAX_RULES, false);
    }
  }
}
