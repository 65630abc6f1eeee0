/**
 The LPeg virtual machine (3rd/lpeg/lpvm.c:198-409, 3rd/lpeg/lpvm.h:15). Code is an array of
 slots: an instruction sits in its first slot, the slots of its offset and of its character
 set follow it. Jump offsets are relative to the instruction, as in the source.
 */
module Machine {
  import opened Common
  import opened Charsets
  import opened Semantics

  datatype Instr =
    | IAny
    | IChar(c: Byte)
    | ISet(cs: CompactSet)
    | ITestAny(off: int)
    | ITestChar(c: Byte, off: int)
    | ITestSet(cs: CompactSet, off: int)
    | ISpan(cs: CompactSet)
    | IBehind(n: nat)
    | IRet
    | IEnd
    | IChoice(off: int)
    | IJmp(off: int)
    | ICall(off: int)
    | IOpenCall(rule: nat)
    | ICommit(off: int)
    | IPartialCommit(off: int)
    | IBackCommit(off: int)
    | IFailTwice
    | IFail
    | IFullCapture(kind: nat, len: nat)
    | IOpenCapture(kind: nat)
    | ICloseCapture
    | IEmpty
    | ISlot

  type Code = seq<Instr>

  /** sizei: how many slots an instruction takes. */
  function Size(i: Instr): (n: nat)
    ensures n >= 1
  {
    match i
    case ISet(cs) => 1 + cs.slots
    case ISpan(cs) => 1 + cs.slots
    case ITestSet(cs, _) => 2 + cs.slots
    case ITestChar(_, _) => 2
    case ITestAny(_) => 2
    case IChoice(_) => 2
    case IJmp(_) => 2
    case ICall(_) => 2
    case IOpenCall(_) => 2
    case ICommit(_) => 2
    case IPartialCommit(_) => 2
    case IBackCommit(_) => 2
    case _ => 1
  }

  /** Instructions with a label, an offset to another instruction. */
  predicate HasOffset(i: Instr) {
    i.ITestAny? || i.ITestChar? || i.ITestSet? || i.IChoice? || i.IJmp? || i.ICall? ||
    i.ICommit? || i.IPartialCommit? || i.IBackCommit?
  }

  /** A pending alternative (with the saved capture level) or a return address. */
  datatype Entry = Choice(pc: int, pos: nat, level: nat) | Return(pc: int)

  datatype Outcome = NoMatch | Matched(pos: nat, caps: seq<Capture>)

  /**
   Run: about to execute the instruction at pc; the stack's top is its first element.
   Stuck: an assertion of the source's interpreter is violated, or pc is not at an instruction.
   */
  datatype State =
    | Run(pc: int, pos: nat, stack: seq<Entry>, caps: seq<Capture>)
    | Halt(outcome: Outcome)
    | Stuck

  /** Address of the IGiveup instruction that the bottom stack entry points to. */
  const GIVEUP := -1

  /** fail: drop pending calls, then resume the last alternative at its capture level. */
  function FailTo(stack: seq<Entry>, caps: seq<Capture>): State {
    if |stack| == 0 then Stuck
    else if stack[0].Return? then FailTo(stack[1..], caps)
    else if stack[0].level > |caps| then Stuck
    else Run(stack[0].pc, stack[0].pos, stack[1..], caps[..stack[0].level])
  }

  predicate Legal(cs: CompactSet) { |cs.bits| == 32 * cs.slots }

  /** ISpan: skip characters of the set. */
  function SpanEnd(cs: CompactSet, s: Subject, i: nat): (j: nat)
    requires Legal(cs) && i <= |s|
    ensures i <= j <= |s|
    decreases |s| - i
  {
    if i < |s| && CharInSet(cs, s[i]) then SpanEnd(cs, s, i + 1) else i
  }

  /** One turn of the interpreter's loop. */
  function Step(code: Code, s: Subject, st: State): State
  {
    if !st.Run? then st
    else
      var Run(pc, i, stack, caps) := st;
      if i > |s| then Stuck
      else if pc == GIVEUP then if stack == [] then Halt(NoMatch) else Stuck
      else if !(0 <= pc < |code|) then Stuck
      else
        match code[pc]
        case IEnd => if |stack| == 1 then Halt(Matched(i, caps)) else Stuck
        case IRet => if |stack| > 0 && stack[0].Return? then Run(stack[0].pc, i, stack[1..], caps) else Stuck
        case IAny => if i < |s| then Run(pc + 1, i + 1, stack, caps) else FailTo(stack, caps)
        case ITestAny(off) => if i < |s| then Run(pc + 2, i, stack, caps) else Run(pc + off, i, stack, caps)
        case IChar(c) => if i < |s| && s[i] == c then Run(pc + 1, i + 1, stack, caps) else FailTo(stack, caps)
        case ITestChar(c, off) =>
          if i < |s| && s[i] == c then Run(pc + 2, i, stack, caps) else Run(pc + off, i, stack, caps)
        case ISet(cs) =>
          if !Legal(cs) then Stuck
          else if i < |s| && CharInSet(cs, s[i]) then Run(pc + 1 + cs.slots, i + 1, stack, caps)
          else FailTo(stack, caps)
        case ITestSet(cs, off) =>
          if !Legal(cs) then Stuck
          else if i < |s| && CharInSet(cs, s[i]) then Run(pc + 2 + cs.slots, i, stack, caps)
          else Run(pc + off, i, stack, caps)
        case ISpan(cs) => if !Legal(cs) then Stuck else Run(pc + 1 + cs.slots, SpanEnd(cs, s, i), stack, caps)
        case IBehind(n) => if n > i then FailTo(stack, caps) else Run(pc + 1, i - n, stack, caps)
        case IJmp(off) => Run(pc + off, i, stack, caps)
        case IChoice(off) => Run(pc + 2, i, [Choice(pc + off, i, |caps|)] + stack, caps)
        case ICall(off) => Run(pc + off, i, [Return(pc + 2)] + stack, caps)
        case ICommit(off) =>
          if |stack| > 0 && stack[0].Choice? then Run(pc + off, i, stack[1..], caps) else Stuck
        case IPartialCommit(off) =>
          if |stack| > 0 && stack[0].Choice? then
            Run(pc + off, i, [Choice(stack[0].pc, i, |caps|)] + stack[1..], caps)
          else Stuck
        case IBackCommit(off) =>
          if |stack| > 0 && stack[0].Choice? && stack[0].level <= |caps| then
            Run(pc + off, stack[0].pos, stack[1..], caps[..stack[0].level])
          else Stuck
        case IFailTwice => if |stack| > 0 then FailTo(stack[1..], caps) else Stuck
        case IFail => FailTo(stack, caps)
        case IFullCapture(kind, len) =>
          if len > i then Stuck else Run(pc + 1, i, stack, caps + [Full(kind, i - len, len)])
        case IOpenCapture(kind) => Run(pc + 1, i, stack, caps + [Open(kind, i)])
        case ICloseCapture => if caps == [] then Stuck else Run(pc + 1, i, stack, caps + [Close(i)])
        case _ => Stuck
  }

  function Steps(code: Code, s: Subject, st: State, n: nat): State
    decreases n
  {
    if n == 0 then st else Steps(code, s, Step(code, s, st), n - 1)
  }

  ghost predicate Halts(code: Code, s: Subject, st: State, out: Outcome) {
    exists n: nat :: Steps(code, s, st, n) == Halt(out)
  }

  /** What match starts with: the giveup entry alone on the stack. */
  function Start(i: nat): State { Run(0, i, [Choice(GIVEUP, i, 0)], []) }

  lemma HaltsBefore(code: Code, s: Subject, st: State, out: Outcome)
    requires Halts(code, s, Step(code, s, st), out)
    ensures Halts(code, s, st, out)
  {
    var n: nat :| Steps(code, s, Step(code, s, st), n) == Halt(out);
    assert Steps(code, s, st, n + 1) == Halt(out);
  }

  lemma HaltsAfter(code: Code, s: Subject, st: State, out: Outcome)
    requires Halts(code, s, st, out)
    ensures Halts(code, s, Step(code, s, st), out)
  {
    var n: nat :| Steps(code, s, st, n) == Halt(out);
    if n == 0 {
      assert Steps(code, s, Step(code, s, st), 0) == Halt(out);
    } else {
      assert Steps(code, s, Step(code, s, st), n - 1) == Halt(out);
    }
  }

  lemma HaltsNow(code: Code, s: Subject, out: Outcome)
    ensures Halts(code, s, Halt(out), out)
  {
    assert Steps(code, s, Halt(out), 0) == Halt(out);
  }

  lemma {:induction false} StepsStay(code: Code, s: Subject, st: State, n: nat)
    requires !st.Run?
    ensures Steps(code, s, st, n) == st
    decreases n
  {
    if n > 0 {
      StepsStay(code, s, st, n - 1);
    }
  }

  /** The machine is deterministic: one outcome at most. */
  lemma {:induction false} HaltsOnce(code: Code, s: Subject, st: State, a: nat, b: nat, o1: Outcome, o2: Outcome)
    requires Steps(code, s, st, a) == Halt(o1) && Steps(code, s, st, b) == Halt(o2)
    ensures o1 == o2
    decreases a
  {
    if a == 0 {
      StepsStay(code, s, st, b);
    } else if b == 0 {
      StepsStay(code, s, st, a);
    } else {
      HaltsOnce(code, s, Step(code, s, st), a - 1, b - 1, o1, o2);
    }
  }
}
