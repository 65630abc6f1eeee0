/**
 Building pattern trees (3rd/lpeg/lptree.c:75-125 and 560-660): the constructors simplify and
 repeat, finalfix makes sequences and choices right associative, and none of it changes what a
 pattern means.
 */
module TreeBuilding {
  import opened Charsets
  import opened Analysis
  import opened Semantics
  import opened Soundness

  /** lp_seq */
  function Seq(t1: Tree, t2: Tree): Tree {
    if t1.TFalse? || t2.TTrue? then t1 else if t1.TTrue? then t2 else TSeq(t1, t2)
  }

  /** lp_choice */
  function Choice(g: Grammar, d: nat, t1: Tree, t2: Tree): Tree {
    if IsCharset(t1) && IsCharset(t2) then TSet(Union(ToCharset(t1), ToCharset(t2)))
    else if NoFail(g, d, t1) || t2.TFalse? then t1
    else if t1.TFalse? then t2
    else TChoice(t1, t2)
  }

  /** lp_sub */
  function Sub(t1: Tree, t2: Tree): Tree {
    if IsCharset(t1) && IsCharset(t2) then TSet(Intersect(ToCharset(t1), Complement(ToCharset(t2))))
    else TSeq(TNot(t2), t1)
  }

  /** lp_star for a count that is not negative. */
  function AtLeast(p: Tree, n: nat): Tree { if n == 0 then TRep(p) else TSeq(p, AtLeast(p, n - 1)) }

  /** lp_star for a negative count. */
  function AtMost(p: Tree, n: nat): Tree
    requires n > 0
  {
    if n == 1 then TChoice(p, TTrue) else TChoice(TSeq(p, AtMost(p, n - 1)), TTrue)
  }

  lemma CharsetMeans(fuel: nat, g: Grammar, t: Tree, s: Subject, i: nat, packed: bool)
    requires i <= |s| && IsCharset(t)
    ensures Eval(fuel, g, t, s, i, packed) == OneChar(s, i, i < |s| && ToCharset(t)[s[i]])
  {
  }

  lemma SeqMeans(fuel: nat, g: Grammar, t1: Tree, t2: Tree, s: Subject, i: nat, packed: bool)
    requires i <= |s|
    ensures Eval(fuel, g, Seq(t1, t2), s, i, packed) == Eval(fuel, g, TSeq(t1, t2), s, i, packed)
  {
    var r := Eval(fuel, g, t1, s, i, packed);
    if r.Match? {
      assert r.caps + [] == r.caps;
      var r2 := Eval(fuel, g, t2, s, r.pos, packed);
      if r2.Match? { assert [] + r2.caps == r2.caps; }
    }
  }

  lemma ChoiceMeans(fuel: nat, g: Grammar, d: nat, t1: Tree, t2: Tree, s: Subject, i: nat, packed: bool)
    requires i <= |s|
    ensures Eval(fuel, g, Choice(g, d, t1, t2), s, i, packed) == Eval(fuel, g, TChoice(t1, t2), s, i, packed)
  {
    if IsCharset(t1) && IsCharset(t2) {
      CharsetMeans(fuel, g, t1, s, i, packed);
      CharsetMeans(fuel, g, t2, s, i, packed);
    } else if NoFail(g, d, t1) {
      NoFailSound(fuel, g, d, t1, s, i, packed);
    }
  }

  lemma SubMeans(fuel: nat, g: Grammar, t1: Tree, t2: Tree, s: Subject, i: nat, packed: bool)
    requires i <= |s|
    ensures Eval(fuel, g, Sub(t1, t2), s, i, packed) == Eval(fuel, g, TSeq(TNot(t2), t1), s, i, packed)
  {
    if IsCharset(t1) && IsCharset(t2) {
      CharsetMeans(fuel, g, t1, s, i, packed);
      CharsetMeans(fuel, g, t2, s, i, packed);
    }
  }

  /** n turns of a pattern, all of which must match. */
  function Turns(fuel: nat, g: Grammar, p: Tree, n: nat, s: Subject, i: nat, packed: bool): (r: Result)
    requires i <= |s|
    ensures r.Match? ==> r.pos <= |s|
  {
    if n == 0 then Match(i, [])
    else
      var r := Eval(fuel, g, p, s, i, packed);
      if r.Match? then Append(r.caps, Turns(fuel, g, p, n - 1, s, r.pos, packed)) else r
  }

  /** As many turns as match, at most n. */
  function Greedy(fuel: nat, g: Grammar, p: Tree, n: nat, s: Subject, i: nat, packed: bool): Result
    requires i <= |s|
  {
    if n == 0 then Match(i, [])
    else
      var r := Eval(fuel, g, p, s, i, packed);
      if r.Out? then Out
      else if r.Fail? then Match(i, [])
      else Append(r.caps, Greedy(fuel, g, p, n - 1, s, r.pos, packed))
  }

  /** p^n for n >= 0: n turns that must match, then as many as do. */
  lemma {:induction false} AtLeastMeans(fuel: nat, g: Grammar, p: Tree, n: nat, s: Subject, i: nat, packed: bool)
    requires i <= |s|
    ensures var first := Turns(fuel, g, p, n, s, i, packed);
      Eval(fuel, g, AtLeast(p, n), s, i, packed)
      == if first.Match? then Append(first.caps, Eval(fuel, g, TRep(p), s, first.pos, packed)) else first
  {
    var r := Eval(fuel, g, p, s, i, packed);
    if n == 0 {
      var all := Eval(fuel, g, TRep(p), s, i, packed);
      if all.Match? { assert [] + all.caps == all.caps; }
    } else if r.Match? {
      AtLeastMeans(fuel, g, p, n - 1, s, r.pos, packed);
      var more := Turns(fuel, g, p, n - 1, s, r.pos, packed);
      if more.Match? {
        var all := Eval(fuel, g, TRep(p), s, more.pos, packed);
        if all.Match? { assert r.caps + (more.caps + all.caps) == (r.caps + more.caps) + all.caps; }
      }
    }
  }

  /** A greedy run never fails. */
  lemma {:induction false} GreedyEnds(fuel: nat, g: Grammar, p: Tree, n: nat, s: Subject, i: nat, packed: bool)
    requires i <= |s|
    ensures !Greedy(fuel, g, p, n, s, i, packed).Fail?
  {
    if n > 0 {
      var r := Eval(fuel, g, p, s, i, packed);
      if r.Match? { GreedyEnds(fuel, g, p, n - 1, s, r.pos, packed); }
    }
  }

  /** p^-n: as many turns as match, at most n. */
  lemma {:induction false} AtMostMeans(fuel: nat, g: Grammar, p: Tree, n: nat, s: Subject, i: nat, packed: bool)
    requires i <= |s| && n > 0
    ensures Eval(fuel, g, AtMost(p, n), s, i, packed) == Greedy(fuel, g, p, n, s, i, packed)
  {
    var r := Eval(fuel, g, p, s, i, packed);
    if n == 1 {
      if r.Match? { assert r.caps + [] == r.caps; }
    } else if r.Match? {
      AtMostMeans(fuel, g, p, n - 1, s, r.pos, packed);
      GreedyEnds(fuel, g, p, n - 1, s, r.pos, packed);
    }
  }

  // ---------- associativity ----------

  /** correctassociativity: (t11 op t12) op t2 becomes t11 op (t12 op t2) until the first part is another construction. */
  function RightAssociative(t: Tree): Tree {
    if t.TSeq? then SeqOnto(t.p1, t.p2) else if t.TChoice? then ChoiceOnto(t.p1, t.p2) else t
  }

  /** The sequences on the left spine of t, pushed onto what follows. */
  function SeqOnto(t: Tree, rest: Tree): Tree
    decreases t
  {
    if t.TSeq? then SeqOnto(t.p1, TSeq(t.p2, rest)) else TSeq(t, rest)
  }

  function ChoiceOnto(t: Tree, rest: Tree): Tree
    decreases t
  {
    if t.TChoice? then ChoiceOnto(t.p1, TChoice(t.p2, rest)) else TChoice(t, rest)
  }

  lemma AppendTwice(a: seq<Capture>, b: seq<Capture>, r: Result)
    ensures Append(a, Append(b, r)) == Append(a + b, r)
  {
    if r.Match? { assert a + (b + r.caps) == (a + b) + r.caps; }
  }

  lemma {:induction false} SeqOntoMeans(fuel: nat, g: Grammar, t: Tree, rest: Tree, s: Subject, i: nat, packed: bool)
    requires i <= |s|
    ensures Eval(fuel, g, SeqOnto(t, rest), s, i, packed) == Eval(fuel, g, TSeq(t, rest), s, i, packed)
    decreases t
  {
    if t.TSeq? {
      SeqOntoMeans(fuel, g, t.p1, TSeq(t.p2, rest), s, i, packed);
      var r1 := Eval(fuel, g, t.p1, s, i, packed);
      if r1.Match? {
        var r2 := Eval(fuel, g, t.p2, s, r1.pos, packed);
        if r2.Match? { AppendTwice(r1.caps, r2.caps, Eval(fuel, g, rest, s, r2.pos, packed)); }
      }
    }
  }

  lemma {:induction false} ChoiceOntoMeans(fuel: nat, g: Grammar, t: Tree, rest: Tree, s: Subject, i: nat, packed: bool)
    requires i <= |s|
    ensures Eval(fuel, g, ChoiceOnto(t, rest), s, i, packed) == Eval(fuel, g, TChoice(t, rest), s, i, packed)
    decreases t
  {
    if t.TChoice? { ChoiceOntoMeans(fuel, g, t.p1, TChoice(t.p2, rest), s, i, packed); }
  }

  /** Making a sequence or choice right associative does not change its meaning, at any bound, nor its captures. */
  lemma RightAssociativeMeans(fuel: nat, g: Grammar, t: Tree, s: Subject, i: nat, packed: bool)
    requires i <= |s|
    ensures Eval(fuel, g, RightAssociative(t), s, i, packed) == Eval(fuel, g, t, s, i, packed)
  {
    if t.TSeq? {
      SeqOntoMeans(fuel, g, t.p1, t.p2, s, i, packed);
    } else if t.TChoice? {
      ChoiceOntoMeans(fuel, g, t.p1, t.p2, s, i, packed);
    }
  }

  // ---------- the node array ----------

  /** What a node holds besides its children. */
  datatype Op = OLeaf(t: Tree) | ORep | OSeq | OChoice | ONot | OAnd | OBehind(n: nat) | OCapture(kind: nat)

  /** A node of the flat tree; ps is where its second child starts, counted from the node itself. */
  datatype Node = Node(op: Op, ps: nat)

  /** A tree as nodes in preorder; a nested grammar is never looked into and stands as one node. */
  function Flat(t: Tree): (ns: seq<Node>)
    ensures |ns| > 0
  {
    match t
    case TRep(p) => [Node(ORep, 0)] + Flat(p)
    case TSeq(p1, p2) => [Node(OSeq, |Flat(p1)| + 1)] + Flat(p1) + Flat(p2)
    case TChoice(p1, p2) => [Node(OChoice, |Flat(p1)| + 1)] + Flat(p1) + Flat(p2)
    case TNot(p) => [Node(ONot, 0)] + Flat(p)
    case TAnd(p) => [Node(OAnd, 0)] + Flat(p)
    case TBehind(n, p) => [Node(OBehind(n), 0)] + Flat(p)
    case TCapture(kind, p) => [Node(OCapture(kind), 0)] + Flat(p)
    case _ => [Node(OLeaf(t), 0)]
  }

  /** A sequence or a choice. */
  function Both(sequence: bool, t1: Tree, t2: Tree): Tree { if sequence then TSeq(t1, t2) else TChoice(t1, t2) }

  function Onto(sequence: bool, t: Tree, rest: Tree): Tree { if sequence then SeqOnto(t, rest) else ChoiceOnto(t, rest) }

  function OpOf(sequence: bool): Op { if sequence then OSeq else OChoice }

  lemma FlatBoth(sequence: bool, t1: Tree, t2: Tree)
    ensures Flat(Both(sequence, t1, t2)) == [Node(OpOf(sequence), |Flat(t1)| + 1)] + Flat(t1) + Flat(t2)
  {
  }

  lemma FirstOp(t: Tree, sequence: bool)
    ensures Flat(t)[0].op == OpOf(sequence) <==> (if sequence then t.TSeq? else t.TChoice?)
  {
  }

  lemma {:induction false} OntoSize(sequence: bool, t: Tree, rest: Tree)
    ensures |Flat(Onto(sequence, t, rest))| == |Flat(Both(sequence, t, rest))|
    decreases t
  {
    if sequence && t.TSeq? {
      OntoSize(sequence, t.p1, TSeq(t.p2, rest));
    } else if !sequence && t.TChoice? {
      OntoSize(sequence, t.p1, TChoice(t.p2, rest));
    }
  }

  /** memmove of n nodes one place down. */
  method MoveDown(a: array<Node>, to: nat, n: nat)
    requires to + 1 + n <= a.Length
    modifies a
    ensures forall k :: to <= k < to + n ==> a[k] == old(a[k + 1])
    ensures forall k :: 0 <= k < a.Length && (k < to || k >= to + n) ==> a[k] == old(a[k])
  {
    var i := 0;
    while i < n
      invariant 0 <= i <= n
      invariant forall k :: to <= k < to + i ==> a[k] == old(a[k + 1])
      invariant forall k :: 0 <= k < a.Length && (k < to || k >= to + i) ==> a[k] == old(a[k])
    {
      a[to + i] := a[to + i + 1];
      i := i + 1;
    }
  }

  /** correctassociativity in place: the nodes of the tree become those of the right associative tree. */
  method CorrectAssociativity(a: array<Node>, at: nat, ghost sequence: bool, ghost t1: Tree, ghost t2: Tree)
    requires at + |Flat(Both(sequence, t1, t2))| <= a.Length
    requires a[at..at + |Flat(Both(sequence, t1, t2))|] == Flat(Both(sequence, t1, t2))
    modifies a
    ensures |Flat(Onto(sequence, t1, t2))| == |Flat(Both(sequence, t1, t2))|
    ensures a[at..at + |Flat(Onto(sequence, t1, t2))|] == Flat(Onto(sequence, t1, t2))
    ensures forall k :: 0 <= k < a.Length && (k < at || k >= at + |Flat(Onto(sequence, t1, t2))|) ==> a[k] == old(a[k])
  {
    hide Flat, Onto;
    OntoSize(sequence, t1, t2);
    ghost var n := |Flat(Both(sequence, t1, t2))|;
    ghost var u1, u2 := t1, t2;
    FirstNodes(a[at..at + n], sequence, u1, u2);
    while a[at + 1].op == a[at].op
      invariant |Flat(Both(sequence, u1, u2))| == n >= 2 && a[at..at + n] == Flat(Both(sequence, u1, u2))
      invariant a[at].op == OpOf(sequence) && (a[at + 1].op == OpOf(sequence) <==> IsBoth(sequence, u1))
      invariant Onto(sequence, u1, u2) == Onto(sequence, t1, t2)
      invariant forall k :: 0 <= k < a.Length && (k < at || k >= at + n) ==> a[k] == old(a[k])
      decreases u1
    {
      ghost var b := a[at..at + n];
      Rotation(b, sequence, u1, u2);
      OntoStep(sequence, u1, u2);
      assert a[at] == b[0] && a[at + 1] == b[1];
      RotateOnce(a, at, n);
      ghost var c := a[at..at + n];
      ghost var n11 := b[1].ps - 1;
      assert c[1..n11 + 1] == b[2..n11 + 2] && c[n11 + 2..] == b[n11 + 2..];
      Rotated(b, c, sequence, u1, u2);
      u1, u2 := PartOne(u1), Both(sequence, PartTwo(u1), u2);
      FirstNodes(c, sequence, u1, u2);
      assert a[at] == c[0] && a[at + 1] == c[1];
    }
    OntoDone(sequence, u1, u2);
  }

  /** One turn of the loop, on the nodes. */
  method RotateOnce(a: array<Node>, at: nat, ghost n: nat)
    requires at + n <= a.Length && n >= 3 && 1 <= a[at + 1].ps && a[at + 1].ps + 1 <= a[at].ps && a[at].ps <= n - 1
    modifies a
    ensures
      var b, c := old(a[at..at + n]), a[at..at + n];
      var n11 := b[1].ps - 1;
      c[0] == Node(b[0].op, n11 + 1) && c[n11 + 1] == Node(b[0].op, b[0].ps - 1 - n11)
      && (forall k :: 1 <= k < n11 + 1 ==> c[k] == b[k + 1]) && (forall k :: n11 + 2 <= k < n ==> c[k] == b[k])
    ensures forall k :: 0 <= k < a.Length && (k < at || k >= at + n) ==> a[k] == old(a[k])
  {
    ghost var b := a[at..at + n];
    assert forall k :: 0 <= k < n ==> b[k] == a[at + k];
    var n1size := a[at].ps - 1;
    var n11size := a[at + 1].ps - 1;
    var n12size := n1size - n11size - 1;
    MoveDown(a, at + 1, n11size);
    a[at] := Node(a[at].op, n11size + 1);
    a[at + n11size + 1] := Node(a[at].op, n12size + 1);
    ghost var c := a[at..at + n];
    forall k | 1 <= k < n11size + 1 ensures c[k] == b[k + 1] { assert c[k] == a[at + k]; }
  }

  predicate IsBoth(sequence: bool, t: Tree) { if sequence then t.TSeq? else t.TChoice? }

  function PartOne(t: Tree): Tree { if t.TSeq? || t.TChoice? then t.p1 else t }

  function PartTwo(t: Tree): Tree { if t.TSeq? || t.TChoice? then t.p2 else t }

  lemma FirstNodes(b: seq<Node>, sequence: bool, u1: Tree, u2: Tree)
    requires b == Flat(Both(sequence, u1, u2))
    ensures |b| >= 3 && b[0].op == OpOf(sequence) && b[0].ps == |Flat(u1)| + 1
    ensures b[1].op == OpOf(sequence) <==> IsBoth(sequence, u1)
  {
    FlatBoth(sequence, u1, u2);
    FirstOp(u1, sequence);
    assert b[1] == Flat(u1)[0];
  }

  lemma OntoStep(sequence: bool, u1: Tree, u2: Tree)
    requires IsBoth(sequence, u1)
    ensures Onto(sequence, u1, u2) == Onto(sequence, PartOne(u1), Both(sequence, PartTwo(u1), u2))
    ensures PartOne(u1) < u1
  {
  }

  lemma OntoDone(sequence: bool, u1: Tree, u2: Tree)
    requires !IsBoth(sequence, u1)
    ensures Onto(sequence, u1, u2) == Both(sequence, u1, u2)
  {
  }

  /** Where the parts of (t11 op t12) op t2 lie. */
  lemma RotationParts(b: seq<Node>, h0: Node, h1: Node, x: seq<Node>, y: seq<Node>, z: seq<Node>)
    requires b == [h0] + ([h1] + x + y) + z
    ensures |b| == 2 + |x| + |y| + |z| && b[1] == h1 && b[2..2 + |x|] == x && b[|x| + 2..] == y + z
  {
    assert b == [h0, h1] + x + (y + z);
  }

  lemma Rotation(b: seq<Node>, sequence: bool, u1: Tree, u2: Tree)
    requires IsBoth(sequence, u1) && b == Flat(Both(sequence, u1, u2))
    ensures
      var n11, n12 := |Flat(PartOne(u1))|, |Flat(PartTwo(u1))|;
      |b| == 2 + n11 + n12 + |Flat(u2)| && b[0].ps == n11 + n12 + 2 && b[1].ps == n11 + 1
      && b[2..2 + n11] == Flat(PartOne(u1)) && b[n11 + 2..] == Flat(PartTwo(u1)) + Flat(u2)
  {
    FlatBoth(sequence, u1, u2);
    FlatBoth(sequence, PartOne(u1), PartTwo(u1));
    hide Flat;
    RotationParts(b, b[0], b[1], Flat(PartOne(u1)), Flat(PartTwo(u1)), Flat(u2));
  }

  /** The rotated nodes are those of t11 op (t12 op t2). */
  lemma Rotated(b: seq<Node>, c: seq<Node>, sequence: bool, u1: Tree, u2: Tree)
    requires IsBoth(sequence, u1) && b == Flat(Both(sequence, u1, u2)) && |c| == |b|
    requires
      var n11, n12 := |Flat(PartOne(u1))|, |Flat(PartTwo(u1))|;
      |b| == 2 + n11 + n12 + |Flat(u2)|
      && c[0] == Node(OpOf(sequence), n11 + 1) && c[n11 + 1] == Node(OpOf(sequence), n12 + 1)
      && c[1..n11 + 1] == Flat(PartOne(u1)) && c[n11 + 2..] == Flat(PartTwo(u1)) + Flat(u2)
    ensures c == Flat(Both(sequence, PartOne(u1), Both(sequence, PartTwo(u1), u2)))
  {
    FlatBoth(sequence, PartTwo(u1), u2);
    FlatBoth(sequence, PartOne(u1), Both(sequence, PartTwo(u1), u2));
    hide Flat;
    var t11, t12, t2 := Flat(PartOne(u1)), Flat(PartTwo(u1)), Flat(u2);
    assert c == [c[0]] + t11 + ([c[|t11| + 1]] + t12 + t2);
  }

  // ---------- finalfix ----------

  lemma OntoIsBoth(sequence: bool, t: Tree, rest: Tree)
    ensures IsBoth(sequence, Onto(sequence, t, rest))
    decreases t
  {
    if IsBoth(sequence, t) { OntoIsBoth(sequence, t.p1, Both(sequence, t.p2, rest)); }
  }

  /** finalfix, as far as it rearranges: every sequence and choice outside nested grammars becomes right associative. */
  function Fixed(t: Tree): (r: Tree)
    ensures |Flat(r)| == |Flat(t)|
    decreases |Flat(t)|
  {
    match t
    case TRep(p) => TRep(Fixed(p))
    case TNot(p) => TNot(Fixed(p))
    case TAnd(p) => TAnd(Fixed(p))
    case TBehind(n, p) => TBehind(n, Fixed(p))
    case TCapture(kind, p) => TCapture(kind, Fixed(p))
    case TSeq(p1, p2) =>
      OntoIsBoth(true, p1, p2);
      OntoSize(true, p1, p2);
      var r := SeqOnto(p1, p2);
      TSeq(Fixed(r.p1), Fixed(r.p2))
    case TChoice(p1, p2) =>
      OntoIsBoth(false, p1, p2);
      OntoSize(false, p1, p2);
      var r := ChoiceOnto(p1, p2);
      TChoice(Fixed(r.p1), Fixed(r.p2))
    case _ => t
  }

  lemma Smaller(t: Tree)
    ensures t.TRep? || t.TNot? || t.TAnd? || t.TBehind? || t.TCapture? ==> |Flat(Child(t))| < |Flat(t)|
  {
  }

  lemma SeqShape(p1: Tree, p2: Tree)
    ensures var r := SeqOnto(p1, p2);
      r.TSeq? && |Flat(r.p1)| < |Flat(TSeq(p1, p2))| && |Flat(r.p2)| < |Flat(TSeq(p1, p2))|
      && Fixed(TSeq(p1, p2)) == TSeq(Fixed(r.p1), Fixed(r.p2))
  {
    OntoIsBoth(true, p1, p2);
    OntoSize(true, p1, p2);
  }

  lemma ChoiceShape(p1: Tree, p2: Tree)
    ensures var r := ChoiceOnto(p1, p2);
      r.TChoice? && |Flat(r.p1)| < |Flat(TChoice(p1, p2))| && |Flat(r.p2)| < |Flat(TChoice(p1, p2))|
      && Fixed(TChoice(p1, p2)) == TChoice(Fixed(r.p1), Fixed(r.p2))
  {
    OntoIsBoth(false, p1, p2);
    OntoSize(false, p1, p2);
  }

  /** A grammar whose rules have been fixed means, rule by rule, what it meant: same ends, same captures. */
  lemma {:induction false} FixedMeans(fuel: nat, g: Grammar, h: Grammar, t: Tree, s: Subject, i: nat)
    requires i <= |s| && |h| == |g| && forall k :: 0 <= k < |g| ==> h[k] == Fixed(g[k])
    ensures Eval(fuel, h, Fixed(t), s, i, false) == Eval(fuel, g, t, s, i, false)
    decreases fuel, |Flat(t)|
  {
    hide SeqOnto, ChoiceOnto, Onto, FixedLen, HasCaptures, ShortBody, Flat;
    Smaller(t);
    match t
    case TRep(p) =>
      FixedMeans(fuel, g, h, p, s, i);
      var r := Eval(fuel, g, p, s, i, false);
      if r.Match? && fuel > 0 { FixedMeans(fuel - 1, g, h, t, s, r.pos); }
    case TSeq(p1, p2) =>
      SeqShape(p1, p2);
      var r := SeqOnto(p1, p2);
      SeqOntoMeans(fuel, g, p1, p2, s, i, false);
      FixedMeans(fuel, g, h, r.p1, s, i);
      var m := Eval(fuel, g, r.p1, s, i, false);
      if m.Match? { FixedMeans(fuel, g, h, r.p2, s, m.pos); }
    case TChoice(p1, p2) =>
      ChoiceShape(p1, p2);
      var r := ChoiceOnto(p1, p2);
      ChoiceOntoMeans(fuel, g, p1, p2, s, i, false);
      FixedMeans(fuel, g, h, r.p1, s, i);
      FixedMeans(fuel, g, h, r.p2, s, i);
    case TNot(p) => FixedMeans(fuel, g, h, p, s, i);
    case TAnd(p) => FixedMeans(fuel, g, h, p, s, i);
    case TBehind(n, p) => if n <= i { FixedMeans(fuel, g, h, p, s, i - n); }
    case TCapture(_, p) => FixedMeans(fuel, g, h, p, s, i);
    case TCall(n) => if fuel > 0 && n < |g| { FixedMeans(fuel - 1, g, h, g[n], s, i); }
    case _ =>
  }

  /** The tree a node starts, and how many children it has. */
  predicate OneChild(op: Op) { op.ORep? || op.ONot? || op.OAnd? || op.OBehind? || op.OCapture? }

  predicate TwoChildren(op: Op) { op.OSeq? || op.OChoice? }

  /** finalfix on the nodes. */
  method FinalFix(a: array<Node>, at: nat, ghost t: Tree)
    requires at + |Flat(t)| <= a.Length && a[at..at + |Flat(t)|] == Flat(t)
    modifies a
    ensures a[at..at + |Flat(t)|] == Flat(Fixed(t))
    ensures forall k :: 0 <= k < a.Length && (k < at || k >= at + |Flat(t)|) ==> a[k] == old(a[k])
    decreases |Flat(t)|, 1
  {
    hide Flat, Fixed, Onto;
    ghost var n := |Flat(t)|;
    assert a[at] == a[at..at + n][0];
    Head(t);
    if OneChild(a[at].op) {
      OneFixed(t);
      assert a[at + 1..at + n] == Flat(Child(t));
      FinalFix(a, at + 1, Child(t));
      assert a[at..at + n] == [a[at]] + a[at + 1..at + n];
    } else if TwoChildren(a[at].op) {
      ghost var sequence := t.TSeq?;
      BothFixed(t, sequence);
      CorrectAssociativity(a, at, sequence, t.p1, t.p2);
      ghost var r := Onto(sequence, t.p1, t.p2);
      FixBoth(a, at, sequence, r.p1, r.p2);
    } else {
      LeafFixed(t);
    }
  }

  /** finalfix on two trees one behind the other. */
  method FixParts(a: array<Node>, first: nat, second: nat, ghost t1: Tree, ghost t2: Tree)
    requires first + |Flat(t1)| == second && second + |Flat(t2)| <= a.Length
    requires a[first..second] == Flat(t1) && a[second..second + |Flat(t2)|] == Flat(t2)
    modifies a
    ensures |Flat(Fixed(t1))| == |Flat(t1)| && |Flat(Fixed(t2))| == |Flat(t2)|
    ensures a[first..second] == Flat(Fixed(t1)) && a[second..second + |Flat(t2)|] == Flat(Fixed(t2))
    ensures forall k :: 0 <= k < a.Length && (k < first || k >= second + |Flat(t2)|) ==> a[k] == old(a[k])
    decreases |Flat(t1)| + |Flat(t2)|, 2
  {
    hide Flat, Fixed;
    FinalFix(a, first, t1);
    assert a[second..second + |Flat(t2)|] == old(a[second..second + |Flat(t2)|]);
    label between:
    FinalFix(a, second, t2);
    assert a[first..second] == old@between(a[first..second]);
  }

  /** The two children of a node, one after the other. */
  method FixBoth(a: array<Node>, at: nat, ghost sequence: bool, ghost t1: Tree, ghost t2: Tree)
    requires at + |Flat(Both(sequence, t1, t2))| <= a.Length
    requires a[at..at + |Flat(Both(sequence, t1, t2))|] == Flat(Both(sequence, t1, t2))
    modifies a
    ensures |Flat(Both(sequence, Fixed(t1), Fixed(t2)))| == |Flat(Both(sequence, t1, t2))|
    ensures a[at..at + |Flat(Both(sequence, t1, t2))|] == Flat(Both(sequence, Fixed(t1), Fixed(t2)))
    ensures forall k :: 0 <= k < a.Length && (k < at || k >= at + |Flat(Both(sequence, t1, t2))|) ==> a[k] == old(a[k])
    decreases |Flat(Both(sequence, t1, t2))|, 0
  {
    FlatBoth(sequence, t1, t2);
    FlatBoth(sequence, Fixed(t1), Fixed(t2));
    hide Flat, Fixed, Both;
    ghost var head := Node(OpOf(sequence), |Flat(t1)| + 1);
    ArrayParts(a, at, head, Flat(t1), Flat(t2));
    var second := at + a[at].ps;
    FixParts(a, at + 1, second, t1, t2);
    ArrayWhole(a, at, head, Flat(Fixed(t1)), Flat(Fixed(t2)));
  }

  lemma Parts(a: seq<Node>, at: nat, head: Node, x: seq<Node>, y: seq<Node>)
    requires at + 1 + |x| + |y| <= |a| && a[at..at + 1 + |x| + |y|] == [head] + x + y
    ensures a[at] == head && a[at + 1..at + 1 + |x|] == x && a[at + 1 + |x|..at + 1 + |x| + |y|] == y
  {
    var b, n := a[at..at + 1 + |x| + |y|], |x|;
    assert forall k :: 0 <= k < |b| ==> b[k] == a[at + k];
    forall k | at + 1 <= k < at + 1 + n ensures a[k] == x[k - at - 1] { assert a[k] == b[k - at]; }
    forall k | at + 1 + n <= k < at + 1 + n + |y| ensures a[k] == y[k - at - 1 - n] { assert a[k] == b[k - at]; }
    assert b[0] == head;
  }

  lemma Whole(a: seq<Node>, at: nat, head: Node, x: seq<Node>, y: seq<Node>)
    requires at + 1 + |x| + |y| <= |a|
    requires a[at] == head && a[at + 1..at + 1 + |x|] == x && a[at + 1 + |x|..at + 1 + |x| + |y|] == y
    ensures a[at..at + 1 + |x| + |y|] == [head] + x + y
  {
  }

  lemma ArrayParts(a: array<Node>, at: nat, head: Node, x: seq<Node>, y: seq<Node>)
    requires at + 1 + |x| + |y| <= a.Length && a[at..at + 1 + |x| + |y|] == [head] + x + y
    ensures a[at] == head && a[at + 1..at + 1 + |x|] == x && a[at + 1 + |x|..at + 1 + |x| + |y|] == y
  {
    Parts(a[..], at, head, x, y);
  }

  lemma ArrayWhole(a: array<Node>, at: nat, head: Node, x: seq<Node>, y: seq<Node>)
    requires at + 1 + |x| + |y| <= a.Length
    requires a[at] == head && a[at + 1..at + 1 + |x|] == x && a[at + 1 + |x|..at + 1 + |x| + |y|] == y
    ensures a[at..at + 1 + |x| + |y|] == [head] + x + y
  {
    Whole(a[..], at, head, x, y);
  }

  function Child(t: Tree): Tree {
    match t
    case TRep(p) => p
    case TNot(p) => p
    case TAnd(p) => p
    case TBehind(_, p) => p
    case TCapture(_, p) => p
    case _ => t
  }

  lemma Head(t: Tree)
    ensures |Flat(t)| > 0
    ensures OneChild(Flat(t)[0].op) <==> t.TRep? || t.TNot? || t.TAnd? || t.TBehind? || t.TCapture?
    ensures TwoChildren(Flat(t)[0].op) <==> t.TSeq? || t.TChoice?
  {
  }

  lemma OneFixed(t: Tree)
    requires t.TRep? || t.TNot? || t.TAnd? || t.TBehind? || t.TCapture?
    ensures Flat(t) == [Flat(t)[0]] + Flat(Child(t)) && Flat(Fixed(t)) == [Flat(t)[0]] + Flat(Fixed(Child(t)))
    ensures |Flat(Fixed(Child(t)))| == |Flat(Child(t))|
  {
  }

  lemma BothFixed(t: Tree, sequence: bool)
    requires IsBoth(sequence, t)
    ensures t == Both(sequence, t.p1, t.p2)
    ensures var r := Onto(sequence, t.p1, t.p2);
      IsBoth(sequence, r) && r == Both(sequence, r.p1, r.p2) && |Flat(r)| == |Flat(t)|
      && Fixed(t) == Both(sequence, Fixed(r.p1), Fixed(r.p2))
      && |Flat(Fixed(r.p1))| == |Flat(r.p1)| && |Flat(Fixed(r.p2))| == |Flat(r.p2)|
  {
    OntoIsBoth(sequence, t.p1, t.p2);
    OntoSize(sequence, t.p1, t.p2);
  }

  lemma LeafFixed(t: Tree)
    requires !OneChild(Flat(t)[0].op) && !TwoChildren(Flat(t)[0].op)
    ensures Fixed(t) == t
  {
    Head(t);
  }

  // ---------- lp_star ----------

  const TRUE: Node := Node(OLeaf(TTrue), 0)

  method CopyTree(p: array<Node>, a: array<Node>, to: nat)
    requires to + p.Length <= a.Length && p != a
    modifies a
    ensures a[to..to + p.Length] == p[..]
    ensures forall k :: 0 <= k < a.Length && (k < to || k >= to + p.Length) ==> a[k] == old(a[k])
  {
    var i := 0;
    while i < p.Length
      invariant 0 <= i <= p.Length
      invariant forall k :: to <= k < to + i ==> a[k] == p[k - to]
      invariant forall k :: 0 <= k < a.Length && (k < to || k >= to + p.Length) ==> a[k] == old(a[k])
    {
      a[to + i] := p[i];
      i := i + 1;
    }
  }

  /** k copies of a sequence node and the body it repeats. */
  ghost function Heads(b: seq<Node>, k: nat): (h: seq<Node>)
    ensures |h| == k * (|b| + 1)
  {
    if k == 0 then [] else
      assert (k - 1) * (|b| + 1) + (|b| + 1) == k * (|b| + 1);
      Heads(b, k - 1) + ([Node(OSeq, |b| + 1)] + b)
  }

  lemma {:induction false} AtLeastFlat(p: Tree, n: nat, k: nat)
    requires k <= n
    ensures Flat(AtLeast(p, n)) == Heads(Flat(p), k) + Flat(AtLeast(p, n - k))
  {
    hide Flat, Heads;
    var b := Flat(p);
    if k > 0 {
      AtLeastFlat(p, n, k - 1);
      AtLeastHead(p, n - k + 1);
      HeadsMore(b, k - 1);
      Group(Heads(b, k - 1), [Node(OSeq, |b| + 1)] + b, Flat(AtLeast(p, n - k)));
    } else {
      HeadsNone(b);
      assert [] + Flat(AtLeast(p, n)) == Flat(AtLeast(p, n));
    }
  }

  lemma Group(a: seq<Node>, b: seq<Node>, c: seq<Node>)
    ensures (a + b) + c == a + (b + c)
  {
  }

  lemma AtLeastHead(p: Tree, n: nat)
    requires n > 0
    ensures Flat(AtLeast(p, n)) == ([Node(OSeq, |Flat(p)| + 1)] + Flat(p)) + Flat(AtLeast(p, n - 1))
  {
  }

  /** seqaux: a node and a copy of its first child, behind what is written already. */
  method PutHead(p: array<Node>, tree: array<Node>, at: nat, head: Node)
    requires at + 1 + p.Length <= tree.Length && p != tree
    modifies tree
    ensures tree[..at + 1 + p.Length] == old(tree[..at]) + ([head] + p[..])
    ensures forall k :: at + 1 + p.Length <= k < tree.Length ==> tree[k] == old(tree[k])
  {
    ghost var before := tree[..at];
    tree[at] := head;
    CopyTree(p, tree, at + 1);
    assert tree[..at] == before;
    assert tree[..at + 1 + p.Length] == tree[..at] + ([tree[at]] + tree[at + 1..at + 1 + p.Length]);
  }

  /** lp_star for n >= 0: n sequence nodes in front of a repetition, written from the front. */
  method StarAtLeast(p: array<Node>, n: nat, ghost t: Tree) returns (tree: array<Node>)
    requires p[..] == Flat(t)
    ensures fresh(tree) && tree[..] == Flat(AtLeast(t, n))
  {
    hide Flat, Heads;
    var size1 := p.Length;
    Room(n, size1);
    tree := new Node[(n + 1) * (size1 + 1)](_ => TRUE);
    var at, k := 0, 0;
    HeadsNone(p[..]);
    while k < n
      invariant k <= n && at == k * (size1 + 1) && at + (n + 1 - k) * (size1 + 1) == tree.Length
      invariant tree[..at] == Heads(p[..], k)
    {
      Room(n - k, size1);
      Room(k, size1);
      Spare(n - k - 1, size1);
      PutHead(p, tree, at, Node(OSeq, size1 + 1));
      HeadsMore(p[..], k);
      at := at + size1 + 1;
      k := k + 1;
    }
    PutHead(p, tree, at, Node(ORep, 0));
    AtLeastFlat(t, n, n);
    RepFlat(t);
    assert tree[..] == tree[..at + 1 + size1];
  }

  lemma Spare(n: nat, size1: nat)
    ensures (n + 1) * (size1 + 1) >= size1 + 1
  {
    Room(n, size1);
  }

  lemma Room(n: nat, size1: nat)
    ensures (n + 1) * (size1 + 1) == n * (size1 + 1) + size1 + 1
  {
  }

  lemma HeadsNone(b: seq<Node>)
    ensures Heads(b, 0) == []
  {
  }

  lemma HeadsMore(b: seq<Node>, k: nat)
    ensures Heads(b, k + 1) == Heads(b, k) + ([Node(OSeq, |b| + 1)] + b)
  {
  }

  lemma RepFlat(t: Tree)
    ensures Flat(AtLeast(t, 0)) == [Node(ORep, 0)] + Flat(t)
  {
  }

  /** The nodes of n optional turns before the last of them: a choice, a sequence and the body, k times. */
  ghost function Lefts(b: seq<Node>, n: int, k: nat): seq<Node> {
    if k == 0 then [] else Lefts(b, n, k - 1) + Left(b, n - k + 1)
  }

  ghost function Left(b: seq<Node>, m: int): seq<Node> {
    [Node(OChoice, if m >= 1 then OptionalSize(b, m) - 1 else 0), Node(OSeq, |b| + 1)] + b
  }

  /** The nodes of m optional turns: the body, three more for each turn, and no sequence in the last. */
  function OptionalSize(b: seq<Node>, m: int): (size: nat)
    requires m >= 1
    ensures size >= |b| + 2
    decreases m
  {
    if m == 1 then |b| + 2 else OptionalSize(b, m - 1) + |b| + 3
  }

  function Trues(k: nat): (r: seq<Node>)
    ensures |r| == k
  {
    seq(k, _ => TRUE)
  }

  lemma {:induction false} OptionalProduct(b: seq<Node>, m: int)
    requires m >= 1
    ensures OptionalSize(b, m) == OptionalNodes(m, |b|)
    decreases m
  {
    hide OptionalNodes;
    OneTurn(m, |b|);
    if m > 1 { OptionalProduct(b, m - 1); }
  }

  /** The size lp_star computes for m optional turns of a body. */
  function OptionalNodes(m: int, size1: nat): int { m * (size1 + 3) - 1 }

  lemma OneTurn(m: int, size1: nat)
    ensures OptionalNodes(m, size1) == OptionalNodes(m - 1, size1) + size1 + 3 && OptionalNodes(1, size1) == size1 + 2
  {
    Widths(m, size1 + 3);
  }

  lemma Widths(m: int, w: int)
    ensures m * w == (m - 1) * w + w
  {
  }

  lemma {:induction false} AtMostSize(p: Tree, n: int)
    requires n >= 1
    ensures |Flat(AtMost(p, n))| == OptionalSize(Flat(p), n)
    decreases n
  {
    if n > 1 { AtMostSize(p, n - 1); }
  }

  lemma AtMostHead(p: Tree, n: int)
    requires n > 1
    ensures Flat(AtMost(p, n)) == Left(Flat(p), n) + Flat(AtMost(p, n - 1)) + [TRUE]
  {
    hide Flat, OptionalSize;
    var b, inner := Flat(p), Flat(AtMost(p, n - 1));
    AtMostSize(p, n - 1);
    SizeStep(b, n);
    AtMostNodes(p, n);
    Nested(Node(OChoice, OptionalSize(b, n) - 1), Node(OSeq, |b| + 1), b, inner);
  }

  lemma AtMostNodes(p: Tree, n: int)
    requires n > 1
    ensures var inside := [Node(OSeq, |Flat(p)| + 1)] + Flat(p) + Flat(AtMost(p, n - 1));
      Flat(AtMost(p, n)) == [Node(OChoice, |inside| + 1)] + inside + [TRUE]
  {
    FlatBoth(true, p, AtMost(p, n - 1));
    FlatBoth(false, TSeq(p, AtMost(p, n - 1)), TTrue);
    assert Flat(TTrue) == [TRUE];
  }

  lemma Nested(c: Node, d: Node, b: seq<Node>, inner: seq<Node>)
    ensures [c] + ([d] + b + inner) + [TRUE] == ([c, d] + b) + inner + [TRUE]
  {
  }

  lemma {:induction false} AtMostFlat(p: Tree, n: int, k: nat)
    requires k < n
    ensures Flat(AtMost(p, n)) == Lefts(Flat(p), n, k) + Flat(AtMost(p, n - k)) + Trues(k)
    decreases k
  {
    hide Flat, Left;
    var b := Flat(p);
    if k > 0 {
      AtMostFlat(p, n, k - 1);
      AtMostHead(p, n - k + 1);
      var inner := Flat(AtMost(p, n - k));
      var x, y := Lefts(b, n, k - 1), Left(b, n - k + 1);
      assert Trues(k) == [TRUE] + Trues(k - 1);
      FourGroups(x, y, inner, [TRUE], Trues(k - 1));
    } else {
      assert [] + Flat(AtMost(p, n)) + [] == Flat(AtMost(p, n));
    }
  }

  lemma FourGroups(x: seq<Node>, y: seq<Node>, z: seq<Node>, u: seq<Node>, v: seq<Node>)
    ensures x + (y + z + u) + v == (x + y) + z + (u + v)
  {
  }

  /** lp_star for n < 0: choices and sequences from the front, the empty alternatives from the back. */
  method StarAtMost(p: array<Node>, n0: nat, ghost t: Tree) returns (tree: array<Node>)
    requires p[..] == Flat(t) && n0 > 0
    ensures fresh(tree) && tree[..] == Flat(AtMost(t, n0))
  {
    hide Flat, Lefts, Left, OptionalSize, OptionalNodes;
    ghost var b := p[..];
    var n, size1 := n0, p.Length;
    OptionalProduct(b, n);
    SizeStep(b, n);
    tree := new Node[OptionalNodes(n, size1)](_ => TRUE);
    var at := 0;
    ghost var k: nat := 0;
    LeftsNone(b, n0);
    while n > 1
      invariant 1 <= n == n0 - k && 0 <= at && at + OptionalSize(b, n) + k == tree.Length
      invariant tree[..at] == Lefts(b, n0, k)
      invariant forall j :: tree.Length - k <= j < tree.Length ==> tree[j] == TRUE
      decreases n
    {
      OptionalProduct(b, n);
      SizeStep(b, n);
      var ps := OptionalNodes(n, size1) - 1;
      PutOptional(p, tree, at, ps);
      LeftsMore(b, n0, k, ps);
      at := at + size1 + 2;
      k := k + 1;
      n := n - 1;
      SizeStep(b, n);
    }
    SizeStep(b, 1);
    PutHead(p, tree, at, Node(OChoice, size1 + 1));
    tree[at + size1 + 1] := TRUE;
    AtMostFlat(t, n0, k);
    LastOptional(t);
    LastNodes(tree[..], at, b, Lefts(b, n0, k), k);
  }

  /** A choice with its empty alternative far behind, and a sequence with the body as its first part. */
  method PutOptional(p: array<Node>, tree: array<Node>, at: nat, ps: nat)
    requires p != tree && p.Length + 2 <= ps && at + ps < tree.Length
    modifies tree
    ensures tree[..at + 2 + p.Length] == (old(tree[..at]) + [Node(OChoice, ps)]) + ([Node(OSeq, p.Length + 1)] + p[..])
    ensures tree[at + ps] == TRUE
    ensures forall k :: at + ps < k < tree.Length ==> tree[k] == old(tree[k])
  {
    ghost var before := tree[..at];
    tree[at] := Node(OChoice, ps);
    tree[at + ps] := TRUE;
    assert tree[..at] == before;
    assert tree[..at + 1] == before + [Node(OChoice, ps)];
    PutHead(p, tree, at + 1, Node(OSeq, p.Length + 1));
  }

  lemma LeftsNone(b: seq<Node>, n: int)
    ensures Lefts(b, n, 0) == []
  {
  }

  lemma LeftsMore(b: seq<Node>, n: int, k: nat, ps: nat)
    requires k < n && ps == OptionalSize(b, n - k) - 1
    ensures Lefts(b, n, k + 1) == (Lefts(b, n, k) + [Node(OChoice, ps)]) + ([Node(OSeq, |b| + 1)] + b)
  {
    hide OptionalSize;
    assert [Node(OChoice, ps), Node(OSeq, |b| + 1)] + b == [Node(OChoice, ps)] + ([Node(OSeq, |b| + 1)] + b);
  }

  lemma SizeStep(b: seq<Node>, m: int)
    requires m >= 1
    ensures m > 1 ==> OptionalSize(b, m) == OptionalSize(b, m - 1) + |b| + 3 && OptionalSize(b, m - 1) >= |b| + 2
    ensures m == 1 ==> OptionalSize(b, m) == |b| + 2
    ensures OptionalSize(b, m) >= |b| + 2
  {
  }

  lemma LastOptional(p: Tree)
    ensures Flat(AtMost(p, 1)) == ([Node(OChoice, |Flat(p)| + 1)] + Flat(p)) + [TRUE]
  {
    assert Flat(TTrue) == [TRUE];
  }

  lemma LastNodes(a: seq<Node>, at: nat, b: seq<Node>, lefts: seq<Node>, k: nat)
    requires at + |b| + 2 + k == |a| && |lefts| == at
    requires a[..at + 1 + |b|] == lefts + ([Node(OChoice, |b| + 1)] + b)
    requires forall j :: at + |b| + 1 <= j < |a| ==> a[j] == TRUE
    ensures a == lefts + (([Node(OChoice, |b| + 1)] + b) + [TRUE]) + Trues(k)
  {
    assert a == a[..at + 1 + |b|] + a[at + 1 + |b|..];
    assert a[at + 1 + |b|..] == [TRUE] + Trues(k);
  }
}
