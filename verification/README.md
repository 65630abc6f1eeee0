# Verified models of the Fengnet server core

Fengnet is an actor server with a Lua front end. This project models seven of its components and
proves what each of them is for. Every result is about all inputs, all runs or all reachable states.

| component | files | main results |
|---|---|---|
| LPeg pattern compiler and matching machine | `lpeg_*.dfy` | compiled and optimised code means what the pattern means; the machine never gets stuck, even where it never ends; exactly which grammars are accepted and which of these end; trees are built in place without changing their meaning |
| TCP write protocol and close states | `socket_*.dfy` | whole messages on the wire, one SOCKET_CLOSE, no lost wake-up, conservation of messages, and why each freed message was freed |
| actor scheduler and mailboxes | `actor_*.dfy` | every queue in one place, one dispatcher a service, order and conservation of messages, nothing stranded or leaked, fair turns |
| timing wheel | `timer.dfy` | timers fire at their tick in insertion order, over the wrap of the 32-bit clock |
| sproto zero-packing and struct encoding | `sproto_*.dfy` | round trips also between two versions of a type, exactly which inputs decode and unpack, the shortest encoding, the size bound |
| package framing | `netpack.dfy`, `gateserver.dfy` | what is delivered does not depend on how streams are cut and mixed |
| Diffie-Hellman arithmetic and DES | `crypt_*.dfy` | exact modular powers; the block cipher with its tables and key schedule is DES as FIPS 46-3 defines it; decoding is the exact inverse of encoding |

Each component has a specification of pure functions and, where the source changes state in
place, classes and methods with loops proved equal to it (`lpeg_emit.dfy`, `lpeg_build.dfy`, `socket_server.dfy`,
`actor_queue.dfy`, `TimingWheel` in `timer.dfy`, `sproto_pack_buffers.dfy`,
`sproto_struct_buffers.dfy`, `Netpack` in `netpack.dfy`, `crypt_des_buffers.dfy`). Concurrent
protocols are machines of atomic steps over all interleavings: one locked section or one access
to a shared variable is one step.

## Where the code and its promises differ

- LPeg: verifyrule forgets its accumulator at a nested grammar (3rd/lpeg/lptree.c:1129). A
  left-recursive grammar is accepted (`Limits.LoopingAccepted`) and its match has no end
  (`Limits.LoopingRuns`). `LeftCalls.AcceptedExactly` says which accepted grammars are affected:
  exactly those in which a used rule can come back to a rule before a character is taken, a
  notion defined apart from verifyrule; `Exactness.AcceptsExactly` says the same of the whole
  check, loops over the empty string included. `Verify.KeepsFlag` is a sufficient condition that is
  quicker to check; it also turns away some harmless grammars (`Limits.HarmlessBuilt`).
- LPeg: look-behind is taken to have no calls. hascaptures asserts this for an open call
  (3rd/lpeg/lpcode.c:80), but 3rd/lpeg/makefile:4 compiles the assertion out, and an open call
  under a predicate has the fixed length 0 that lp_behind asks for. `A <- B(!A)` then passes both
  loops of verifygrammar, and they would pass it with the accumulator kept
  (`Limits.BackwardAccepted`); its match has no end (`Limits.BackwardRuns`).
  Together: matching ends for every pattern whose nested grammars are accepted and free of left
  recursion and whose look-behinds contain no call (`Lpeg.MatchEnds`, `Lpeg.CheckedParts`); the
  condition on look-behind is `Calls(p) == {}` in `Verify.PartsAre`.
- Sockets: force_close frees the buffer lists before it takes the lock
  (fengnet-src/socket_server.cpp:1549-1553). A sender that passes its checks in between writes
  behind a half-sent message (`SocketTheorems.ShutdownInterleaves`);
  `SocketTheorems.InterleavesExactly` says that this is the only way, and that it always is one.
- Sockets: a send on an id that is reserved but not open is not counted, and trips the assert at
  fengnet-src/socket_server.cpp:789 later; so does a message still under way when its id is
  reserved. `SocketTheorems.AssertNeedsCare` says that these two are exactly what the assert needs
  (`SocketDiscipline.Careful`): without them it never fails, and from every state reached without
  them each of them can be followed by it failing.
- Sockets: reserve_id does not take a slot's lock. A sender that has read the old id under the lock
  can go on to write its message to the connection opened under the new one, and what is left of
  it waits there with no write event coming (`SocketTheorems.WakeNeedsLock`).
  `SocketTheorems.ProperUse` excludes this with `SocketDiscipline.MidCheck`.
- Timer: timer_execute locks a lock that timer_update already holds
  (fengnet-src/fengnet_timer.cpp:108 and 116). The model takes add, shift and execute as atomic and
  dispatches outside the lock, as the comments intend.
- Crypt: powmodp reduces a base above P but not one equal to P, so powmodp(P, 1) is P
  (lualib-src/lua-crypt.cpp:826); `Modular.PowModp` proves that this is the only miss.

## Model

| member | source | states |
|---|---|---|
| `Lpeg.MatchCorrect` | 3rd/lpeg/lpcode.c:1038-1050 | For every pattern that tree building accepts, whose nested grammars hide no left recursion and whose look-behinds make no calls, on every subject and from every start, the compiled and jump-optimised code stops, at exactly the position and with exactly the captures the pattern means, or with no match when the pattern fails |
| `Lpeg.NeverStuck` | 3rd/lpeg/lpvm.c:230-400 | No run of compiled code, of any length and whether it ends or not, violates an assert of `match` (what the stack top must be at `IEnd`, `IRet`, the commits and the fails) or leaves an instruction boundary; for every well-formed pattern |
| `Lpeg.CompileCorrect` | 3rd/lpeg/lpcode.c:954-980 | Whatever the meaning of a well-formed pattern is, the optimised code reaches it; no assumption about termination of the grammar |
| `Lpeg.MatchEnds` | 3rd/lpeg/lptree.c:1136-1154 | The meaning of such a pattern is defined on every subject from every position |
| `Lpeg.CheckedParts` | 3rd/lpeg/lptree.c:1136-1178 | When every nested grammar has at most MAXRULES rules, passed verifygrammar and is not left recursive in the declarative sense, the results above apply |
| `Lpeg.FlaggedParts` | 3rd/lpeg/lptree.c:1093-1154 | The same when verifyrule kept its accumulator on the way through every used rule |
| `Lpeg.PackingSound` | 3rd/lpeg/lpcode.c:741-760 | Short captures recorded in one entry stand for the same open and close entries as the unpacked form |
| `Limits.LoopingAccepted` | 3rd/lpeg/lptree.c:1129-1130 | The left-recursive grammar `A <- !B A` with B a nested grammar passes verifygrammar, because verifyrule drops its accumulator at a nested grammar |
| `Limits.LoopingRuns` | 3rd/lpeg/lptree.c:1129-1130 | On "y" that grammar has no meaning, and the machine running its compiled code never halts with any outcome |
| `Limits.BackwardAccepted` | 3rd/lpeg/lpcode.c:80 | `A <- B(!A)` passes every check, also the corrected ones, because look-behind is taken to have no calls; only the condition on calls in look-behind excludes it |
| `Limits.BackwardRuns` | 3rd/lpeg/lptree.c:1099-1101 | Its meaning is undefined on every subject from every position |
| `Lpeg.AcceptedFlagged` | 3rd/lpeg/lptree.c:1136-1154 | For one grammar: where the accumulator survives on the path of every used rule, passing the source's check is passing the check that keeps it |
| `Limits.HarmlessBuilt` | 3rd/lpeg/lptree.c:1129-1130 | The grammar `A <- B* "y"` with B a nested grammar loses the accumulator and is harmless: it is accepted and all results apply to it |
| `LeftCalls.AcceptedExactly` | 3rd/lpeg/lptree.c:1136-1154 | A grammar would pass a verifygrammar that never drops its accumulator if and only if it passes the present one and no used rule can come back to a rule before taking a character; what the loop check of the present one refuses is `Exactness.LoopsExactly` |
| `LeftCalls.ErrsExactly` | 3rd/lpeg/lptree.c:1082-1093 | verifyrule with its accumulator kept raises its error on a rule if and only if the rule may be left recursive: some rule appears twice on a path of calls made before any character is taken |
| `LeftCalls.NoFalseAlarm` | 3rd/lpeg/lptree.c:1062-1078 | Every error of the present verifyrule is such a repetition, so the search of verifyerror finds one |
| `LeftCalls.MissedHidden` | 3rd/lpeg/lptree.c:1129-1130 | A left recursion the present verifyrule misses lies behind a nested grammar at which the accumulator is lost |
| `LeftCalls.LongIsCycle` | 3rd/lpeg/lptree.c:1122-1123 | With at most MAXRULES rules, a path of more than MAXRULES left calls exists exactly when a rule repeats on one |
| `LeftCalls.VerdictExact` | 3rd/lpeg/lptree.c:1085-1092 | A verdict of verifyrule that a pattern may be empty is never wrong; with the accumulator kept it is exact |
| `Verify.KeepsFlagAgrees` | 3rd/lpeg/lptree.c:1093-1130 | On patterns that keep the accumulator, verifyrule and the check that never drops it agree |
| `Verify.VerdictSound` | 3rd/lpeg/lptree.c:1080-1092 | A pattern verifyrule calls not nullable consumes a character whenever it matches, for every subject |
| `Verify.Terminates` | 3rd/lpeg/lptree.c:1093-1154 | A measure on remaining subject, then on rules entered without consuming, bounds the match of every accepted rule |
| `Verify.TerminatesLater` | 3rd/lpeg/lptree.c:1093-1154 | The same bound starts afresh after a character has been consumed |
| `Verify.TerminatesNested` | 3rd/lpeg/lptree.c:1136-1154 | Accepted nested grammars end as well, on every subject |
| `Verify.TerminatesCallFree` | 3rd/lpeg/lptree.c:1043-1061 | Patterns without calls end because no repetition has a nullable body |
| `Exactness.AcceptsExactly` | 3rd/lpeg/lptree.c:1136-1154 | What verifygrammar decides, in terms that name none of its checks: with its accumulator kept it would accept exactly the grammars in which no used rule may be left recursive or repeats something that may be empty; the present one accepts all of these, and whatever else it accepts is left recursive behind a nested grammar that drops the accumulator |
| `Exactness.LoopsExactly` | 3rd/lpeg/lptree.c:1043-1060 | checkloops refuses a rule if and only if some repetition in it, outside nested grammars, has a body with a finite derivation of the empty string; captures, predicates and sequences around it make no difference |
| `Exactness.CheckLoopsExact` | 3rd/lpeg/lptree.c:1043-1060 | For every grammar, verified or not, and every bound: checkloops answers yes if and only if some repetition reached by steps to children has a nullable body |
| `Exactness.AcceptedMeans` | 3rd/lpeg/lptree.c:1136-1154 | For every grammar: it is accepted if and only if verifyrule is silent on its used rules and none of them has a repetition with a nullable body |
| `Exactness.NullableExact` | 3rd/lpeg/lpcode.c:97-149 | On every part of a rule checked for left recursion nullable answers yes if and only if a finite derivation shows that the pattern may be empty |
| `Exactness.EmptinessAgrees` | 3rd/lpeg/lptree.c:1093-1130 | The emptiness left calls are defined by is the same, also through nested grammars |
| `Exactness.FixedLenExact` | 3rd/lpeg/lpcode.c:155-194 | fixedlen gives n if and only if some finite derivation assigns the pattern the one length n; so -1 is given exactly when no derivation gives a length |
| `Exactness.CapturesExact` | 3rd/lpeg/lpcode.c:71-95 | hascaptures answers yes if and only if a capture can be reached by steps to children and into called rules |
| `Exactness.BehindExactly` | 3rd/lpeg/lptree.c:760-769 | lp_behind takes a pattern if and only if some derivation gives it one length of at most 255 and no capture can be reached in it |
| `Soundness.CapturesSound` | 3rd/lpeg/lpcode.c:71-95 | A pattern without captures by hascaptures records none in any match |
| `Soundness.FixedLenSound` | 3rd/lpeg/lpcode.c:155-194 | When fixedlen gives a length, every successful match has exactly that length |
| `Soundness.NullableSound` | 3rd/lpeg/lpcode.c:97-114 | A pattern that succeeds without consuming is nullable |
| `Soundness.NoFailSound` | 3rd/lpeg/lpcode.c:97-114 | A nofail pattern never fails |
| `Soundness.NoFailNullable` | 3rd/lpeg/lpcode.c:97-114 | nofail implies nullable |
| `Soundness.FirstSound` | 3rd/lpeg/lpcode.c:197-293 | A match followed by something in the follow set starts with a character of the computed first set, unless the result allows the end or an empty match |
| `Soundness.FirstEmptySound` | 3rd/lpeg/lpcode.c:197-293 | A zero result of getfirst means failure on every subject whose next character is outside the set or absent |
| `Soundness.NoFailFirst` | 3rd/lpeg/lpcode.c:215-293 | For a nofail pattern getfirst never returns zero |
| `Soundness.HeadFailSound` | 3rd/lpeg/lpcode.c:296-322 | A headfail pattern fails only because of the next character: it matches whenever that character is in its first set |
| `Soundness.HeadFailNotEmpty` | 3rd/lpeg/lpcode.c:300-322 | A headfail pattern is not nullable, so its test may be taken without a follow set |
| `Semantics.EvalAdvances` | 3rd/lpeg/lpvm.c:230-400 | A match never ends before it starts or behind the subject |
| `Charsets.KindSound` | 3rd/lpeg/lpcset.c:23-57 | The instruction charsettype picks for a set (fail, char, any, set) accepts exactly the members of the set |
| `Charsets.SingleKind` | 3rd/lpeg/lpcset.c:23-57 | charsettype recognises every one-character set as that character |
| `Charsets.CompactSound` | 3rd/lpeg/lpcset.c:23-57 | Membership in the compact form of a set (offset, size, default) equals membership in the set, for all 256 bytes |
| `Charsets.PackSound` | 3rd/lpeg/lpcset.c:64-70 | Every byte of the packed bit set is the byte of the original set |
| `Placement.CorrectCallsSound` | 3rd/lpeg/lpcode.c:877-898 | After correctcalls every call and tail jump lands on its rule and every other instruction is untouched |
| `Placement.GenFine` | 3rd/lpeg/lpcode.c:954-980 | Generated code is made of whole instructions, calls only rules of its grammar, and has no plain jump to before its start |
| `Labels.GenInside` | 3rd/lpeg/lpcode.c:954-980 | Every label of generated code, of tests, choices, commits, jumps and calls, is at the start of an instruction of that code or just behind it |
| `Placement.GrammarPlaced` | 3rd/lpeg/lpcode.c:901-919 | A grammar lays out a call of its first rule, a jump to its end and its rules, each ending in a return |
| `Placement.RuleSegment` | 3rd/lpeg/lpcode.c:901-919 | The position recorded for a rule is where its code starts |
| `Correctness.Sim` | 3rd/lpeg/lpcode.c:954-980 | For every pattern, context, follow set and test known from before, the generated code run in place ends as the pattern means and leaves stack and captures as the continuation needs |
| `Safety.SafeCode` | 3rd/lpeg/lpcode.c:954-980 | Code of any pattern in any context takes no step that violates an assertion within n steps when no state it can be left in does; runs that never end included |
| `Safety.Falls` | 3rd/lpeg/lpcode.c:884-893 | Where only jumps lead from the start of a pattern to a return they lead there from its end too, and the pattern has no characters to take, so a tail call may skip it |
| `Correctness.SimChoice` | 3rd/lpeg/lpcode.c:673-708 | All four shapes of codechoice (test, no test, partial commit, plain) mean ordered choice |
| `Correctness.SimChoiceTest` | 3rd/lpeg/lpcode.c:678-692 | A choice guarded by a test only, for a headfail first part or disjoint first sets, means the same |
| `Correctness.SimChoicePartial` | 3rd/lpeg/lpcode.c:693-697 | An optional inside an optional may update the entry it finds instead of pushing one |
| `Correctness.SimChoiceStacked` | 3rd/lpeg/lpcode.c:698-707 | The choice with a pushed entry means ordered choice |
| `Correctness.SimRep` | 3rd/lpeg/lpcode.c:817-848 | All shapes of coderep mean greedy repetition |
| `Correctness.SimRepTest` | 3rd/lpeg/lpcode.c:822-830 | A loop driven by a test alone means the repetition when the body is headfail or disjoint from what follows |
| `Correctness.SimRepStacked` | 3rd/lpeg/lpcode.c:831-848 | The loop with partial commit means the repetition, also with the entry of an enclosing optional |
| `Correctness.SpanSound` | 3rd/lpeg/lpcode.c:800-816 | One span instruction is the repetition of a set |
| `Correctness.SimNot` | 3rd/lpeg/lpcode.c:856-870 | A negative predicate that fails twice consumes nothing and records nothing |
| `Correctness.SimNotTest` | 3rd/lpeg/lpcode.c:860-866 | A negative predicate made of a test and a fail means the same for a headfail pattern |
| `Correctness.SimAnd` | 3rd/lpeg/lpcode.c:724-732 | A positive predicate with back commit means look-ahead |
| `Correctness.SimAndLength` | 3rd/lpeg/lpcode.c:716-723 | A positive predicate that steps back over a fixed length means look-ahead |
| `Correctness.SimBehind` | 3rd/lpeg/lpcode.c:655-660 | Look-behind steps back and fails at the start of the subject |
| `Correctness.SimCapture` | 3rd/lpeg/lpcode.c:750-760 | A capture with an open and a close entry records its range |
| `Correctness.SimCaptureShort` | 3rd/lpeg/lpcode.c:741-749 | A short capture of fixed length records its range in one entry |
| `Correctness.SimSeq` | 3rd/lpeg/lpcode.c:934-949 | A sequence passes the first set of its second part to its first part, and its test on only when nothing was consumed |
| `Correctness.SimCall` | 3rd/lpeg/lpcode.c:922-927 | A call returns to the instruction behind it |
| `Correctness.TailReturn` | 3rd/lpeg/lpcode.c:884-893 | A call directly before a return may be a jump |
| `Correctness.CodeCorrect` | 3rd/lpeg/lpcode.c:1038-1050 | The unoptimised code of a whole pattern, with its end instruction, halts with the meaning |
| `Correctness.WellFormedResolved` | 3rd/lpeg/lptree.c:97-125 | A complete pattern has no call that is left open |
| `Peephole.OptimizeSound` | 3rd/lpeg/lpcode.c:992-1031 | Retargeting one jump, or replacing it by what it jumps to, preserves every outcome of every run |
| `Peephole.PeepholeSound` | 3rd/lpeg/lpcode.c:992-1031 | The whole optimised code halts with the outcome the original code halts with |
| `Peephole.PeepholeSafe` | 3rd/lpeg/lpcode.c:992-1031 | When no run of the emitted code gets stuck, no run of the optimised code does |
| `Peephole.TargetMeets` | 3rd/lpeg/lpcode.c:637-651 | Following a chain of jumps ends where the chain would have led |
| `Emit.CompileState.CodeChoice` | 3rd/lpeg/lpcode.c:673-708 | The emitter that patches offsets in place writes exactly the specified code behind what it has |
| `Emit.CompileState.CodeRep` | 3rd/lpeg/lpcode.c:817-848 | The same for repetition |
| `Emit.CompileState.CodeNot` | 3rd/lpeg/lpcode.c:856-870 | The same for the negative predicate |
| `Emit.CompileState.CodeAnd` | 3rd/lpeg/lpcode.c:716-732 | The same for the positive predicate |
| `Emit.CompileState.CodeCapture` | 3rd/lpeg/lpcode.c:741-760 | The same for captures |
| `Emit.CompileState.CodeBehind` | 3rd/lpeg/lpcode.c:655-660 | The same for look-behind |
| `Emit.CompileState.CodeSeq` | 3rd/lpeg/lpcode.c:934-949 | The same for sequences |
| `Emit.CompileState.CloseCalls` | 3rd/lpeg/lpcode.c:877-898 | correctcalls in place: the instructions of the region become those of the specification, no others change |
| `Emit.CompileState.CodeGrammar` | 3rd/lpeg/lpcode.c:901-919 | The same for grammars, with the calls closed |
| `Emit.CompileState.CodeGen` | 3rd/lpeg/lpcode.c:954-980 | codegen in place appends exactly the specified code for every tree |
| `Emit.CompileState.OptimizeJumps` | 3rd/lpeg/lpcode.c:992-1031 | peephole in place rewrites the code to the optimised code |
| `Emit.CompilePattern` | 3rd/lpeg/lpcode.c:1038-1050 | compile returns the compiled code of the pattern |
| `Emit.Match` | 3rd/lpeg/lpvm.c:230-400 | The interpreter loop, which keeps pc, subject position, stack and captures in variables, ends with the outcome the code has |
| `Emit.MatchPattern` | 3rd/lpeg/lpvm.c:230-400 | Compiling and matching in place gives the end position and captures that the pattern means |
| `TreeBuilding.SeqMeans` | 3rd/lpeg/lptree.c:562-575 | lp_seq with its simplifications means sequence |
| `TreeBuilding.ChoiceMeans` | 3rd/lpeg/lptree.c:578-600 | lp_choice with its simplifications, also the one for a nofail first part, means ordered choice |
| `TreeBuilding.SubMeans` | 3rd/lpeg/lptree.c:655-680 | lp_sub, also as a set difference, means the first pattern where the second fails |
| `TreeBuilding.AtLeastMeans` | 3rd/lpeg/lptree.c:603-616 | The tree lp_star builds for n >= 0 takes n turns that must match, then as many as do |
| `TreeBuilding.AtMostMeans` | 3rd/lpeg/lptree.c:617-634 | The tree lp_star builds for a negative count takes as many turns as match, at most that many |
| `TreeBuilding.StarAtLeast` | 3rd/lpeg/lptree.c:603-616 | The loop that writes nodes from the front builds exactly that tree |
| `TreeBuilding.StarAtMost` | 3rd/lpeg/lptree.c:617-634 | The loop that writes choices from the front and empty alternatives from the back builds exactly that tree, in an array of exactly its size |
| `TreeBuilding.RightAssociativeMeans` | 3rd/lpeg/lptree.c:68-88 | Making a sequence or choice right associative keeps its meaning and captures |
| `TreeBuilding.CorrectAssociativity` | 3rd/lpeg/lptree.c:75-88 | The rotation of nodes in place gives the nodes of the right associative tree and touches no others |
| `TreeBuilding.FinalFix` | 3rd/lpeg/lptree.c:97-126 | finalfix in place rearranges every sequence and choice outside nested grammars |
| `TreeBuilding.FixedMeans` | 3rd/lpeg/lptree.c:97-126 | A grammar whose rules have been rearranged means what it meant, rule by rule |
| `Stability.CheckStable` | 3rd/lpeg/lpcode.c:115-149 | For a verified grammar checkaux gives the same answer for every bound on calls from some depth on, and verifyrule finds nullable what checkaux does |
| `Stability.FirstStable` | 3rd/lpeg/lpcode.c:215-293 | The same for getfirst |
| `Stability.HeadFailStable` | 3rd/lpeg/lpcode.c:300-322 | The same for headfail |
| `Stability.GenStable` | 3rd/lpeg/lpcode.c:954-980 | The same for code generation |
| `Stability.CompileStable` | 3rd/lpeg/lpcode.c:1038-1050 | All bounds from a depth fixed by the nesting of grammars on compile a verified pattern to the same code, so the bound plays no part |
| `SocketTheorems.NoInterleaving` | fengnet-src/socket_server.cpp:1281-1366 | In every run of any number of senders and the socket thread, with any partial writes, the accepted bytes are whole messages and a proper prefix of one more; while the socket is in use and no half-sent buffer was freed, the half-sent message is the next to be written |
| `SocketTheorems.InterleavesExactly` | fengnet-src/socket_server.cpp:1541-1573 | A step breaks the stream if and only if it is a direct write that is accepted between force_close's freeing of a half-sent buffer and its taking of the lock |
| `SocketTheorems.ShutdownInterleaves` | fengnet-src/socket_server.cpp:1549-1553 | A run of two senders and one shutdown in which the second sender writes into the middle of the first message |
| `SocketTheorems.ProperUse` | fengnet-src/socket_server.cpp:763-792 | When ids are reserved and used as Proper says, the assert of dec_sending_ref never fails, the counter equals the messages in flight, and what waits on a writable socket has a write event coming |
| `SocketTheorems.AssertNeedsCare` | fengnet-src/socket_server.cpp:785-792 | After every run of careful steps the assert of dec_sending_ref has held; one more careful step leaves that so, and after every careless one (a send on an id that is only reserved, or a reservation while a message for the id is under way) some continuation ends with the assert failing |
| `SocketTheorems.WakeNeedsLock` | fengnet-src/socket_server.cpp:907-934 | After every run of careful steps, reserving a slot while a sender is between its reads of it can be followed by that sender writing its message to the new connection and leaving the rest there without a wake-up |
| `SocketCareless.AssertExactly` | fengnet-src/socket_server.cpp:763-792 | The same as an exact condition on one step, from every state with an exact counter |
| `SocketCareless.MidCheckMisdelivers` | fengnet-src/socket_server.cpp:907-934 | The misdelivery from every state in which the write invariant holds, for every message and every count the kernel accepts |
| `SocketTheorems.EarlySendCrashes` | fengnet-src/socket_server.cpp:763-792 | From the initial state a run reaches the failing assert of dec_sending_ref |
| `SocketTheorems.GracefulCloseLosesNothing` | fengnet-src/socket_server.cpp:336-362 | A close that ends the socket at once frees no message, and none of the socket is left in the pipe |
| `SocketTheorems.MessagesConserved` | fengnet-src/socket_server.cpp:113-182 | In every run each submitted message is with its sender, in the pipe, waiting on the slot, written whole or freed, exactly once; and every freed one met, at a step of the run, one of the reasons of `SocketLosses.MayDrop`: a slot that was invalid, of another id, closing, half-closed for writing, a listener or paused accept, or being given up with the message waiting on it |
| `SocketTheorems.ClosingWhenAsked` | fengnet-src/socket_server.cpp:336-362 | In every run a slot in use is marked closing if and only if a close request for it was served since it was opened |
| `SocketTheorems.WaitingCanBeWritten` | fengnet-src/socket_server.cpp:1341-1366 | After every run of proper steps, everything that waits on a slot that is connecting or can write, with nobody in its lock and no forced close under way, can be written out, by at most a connection and one write event |
| `SocketLosses.KeptExactly` | fengnet-src/socket_server.cpp:619-663 | send_socket keeps a message if and only if the slot does not refuse it, whatever its priority and whatever waits |
| `SocketLosses.DropsOnlyWhen` | fengnet-src/socket_server.cpp:605-663 | A step frees a message only for a reason that is in the step and in the slot it meets |
| `SocketLosses.ServedWaits` | fengnet-src/socket_server.cpp:605-663 | A request to send that the slot does not refuse leaves the message waiting there and frees nothing; a refused one frees just this message |
| `SocketLosses.SendBufferAll` | fengnet-src/socket_server.cpp:1281-1339 | When the kernel takes everything, one write event puts all that waits on the stream, in order, and ends a closing socket |
| `SocketLosses.WritesOut` | fengnet-src/socket_server.cpp:1341-1366 | With the lock free and its write event on, a socket that is connected or about to be can write out its line |
| `SocketLosses.CloseServed` | fengnet-src/socket_server.cpp:336-362 | A close request gives the slot up at once if and only if it is a shutdown, the write side is gone or no message is owed; otherwise everything that waits goes on waiting and only reading ends |
| `SocketLosses.ReadEndServed` | fengnet-src/socket_server.cpp:1031-1052 | The end of the peer's stream gives the slot up if and only if the write side is gone or the slot is closing with nothing owed; otherwise it changes the type alone |
| `SocketLosses.ErrorRaised` | fengnet-src/socket_server.cpp:1148-1168 | A write event raises SOCKET_ERR if and only if it ends the write side, which needs a failed write, and the write event is off then |
| `SocketLosses.EventOnWhileWaiting` | fengnet-src/socket_server.cpp:1281-1339 | A write event leaves the write event on if and only if something still waits, unless the write side or the slot ends |
| `SocketLosses.ConnectServed` | fengnet-src/socket_server.cpp:854-885 | A connection that is made leaves the write event on if and only if a message waits or is on its way |
| `SocketLosses.BrokenEnds` | fengnet-src/socket_server.cpp:1148-1168 | A write that fails with something to write ends the write side, or the slot when it is closing or half closed |
| `SocketAccounting.CloseRaisedOnce` | fengnet-src/socket_server.cpp:331-362 | Between the reservation of an id and its return to INVALID, SOCKET_CLOSE is raised exactly once, or never when SOCKET_ERR refused the connection |
| `SocketAccounting.CloseKept` | fengnet-src/socket_server.cpp:1031-1052 | While a socket is in use SOCKET_CLOSE has been raised exactly if its type is HALFCLOSE_READ; every step keeps this |
| `SocketAccounting.ConservedKept` | fengnet-src/socket_server.cpp:1541-1573 | Every step moves messages between places and neither loses nor doubles one, including what force_close frees |
| `SocketSafety.WriteInvKept` | fengnet-src/socket_server.cpp:113-182 | Every step keeps the write invariant: stream and waiting buffers fit, and the reads of the lock's holder stay true although nothing but the lock protects them |
| `SocketSafety.DirectKeeps` | fengnet-src/socket_server.cpp:124-158 | A direct write after the six reads starts a message only when none is half sent, and leaves the rest where it is written next |
| `SocketSafety.StartForceKeeps` | fengnet-src/socket_server.cpp:1541-1552 | Freeing the lists either loses no half-sent message or is recorded as having lost one |
| `SocketSafety.SendSocketKeeps` | fengnet-src/socket_server.cpp:605-661 | A message from the pipe joins behind whatever has been started, and wb_size stays exact; when it joins is `SocketLosses.KeptExactly` |
| `SocketSafety.NewFdKeeps` | fengnet-src/socket_server.cpp:1614-1645 | At new_fd both lists are empty, as check_wb_list asserts, and a new stream begins |
| `SocketSlot.SendListKeeps` | fengnet-src/socket_server.cpp:1170-1193 | send_list_tcp finishes messages from the head on in order for every sequence of kernel answers, and wb_size falls by what was accepted |
| `SocketSlot.SendBufferKeeps` | fengnet-src/socket_server.cpp:1341-1366 | send_buffer keeps the slot sound, and the stream followed by what waits is what it was: nothing lost, repeated or overtaken |
| `SocketSlot.SecondPass` | fengnet-src/socket_server.cpp:1257-1271 | A half-sent head of the low list moves to the empty high list, and when both lists empty wb_size is zero |
| `SocketSlot.ClosingFinishes` | fengnet-src/socket_server.cpp:1318-1327 | Without a write error a closing socket is given up only when every waiting message is on the stream |
| `SocketDiscipline.WakeKept` | fengnet-src/socket_server.cpp:571-581 | Every step keeps a write event enabled, or a request for one on its way, while anything waits on a writable socket |
| `SocketDiscipline.CountKept` | fengnet-src/socket_server.cpp:763-792 | Every careful step keeps the counter equal to the messages in flight, and the assert of dec_sending_ref true |
| `Wire.StreamIsMessages` | fengnet-src/socket_server.cpp:1170-1193 | A sequence of writes that parses is a byte stream of whole messages and a proper prefix of one more |
| `SocketServer.Slot.SendListTcp` | fengnet-src/socket_server.cpp:1170-1193 | The write loop over a list, on the fields, equals the specified effect for all kernel answers |
| `SocketServer.Slot.SendBothLists` | fengnet-src/socket_server.cpp:1281-1339 | send_buffer_, whose three asserts hold on every sound slot |
| `SocketServer.Slot.SendBufferLocked` | fengnet-src/socket_server.cpp:1341-1366 | send_buffer under the lock keeps the slot sound and its messages in order |
| `SocketServer.Slot.SendDirectly` | fengnet-src/socket_server.cpp:124-158 | The locked section of a direct write: the message is on the stream or waits half sent, for any answer of write |
| `SocketServer.Slot.TakeMessage` | fengnet-src/socket_server.cpp:605-661 | send_socket: a message is kept if and only if the id is that of the slot, which is not closing and of none of the types INVALID, HALFCLOSE_WRITE, PACCEPT, PLISTEN and LISTEN; kept, it waits behind all that waited, or, when it is high, behind all but the low list; the slot stays sound with an exact wb_size; refused, it changes nothing |
| `SocketServer.Slot.CloseRequest` | fengnet-src/socket_server.cpp:336-362 | close_socket keeps stream, line and soundness; it raises SOCKET_CLOSE exactly when the reading side was open; it ends the socket without shutdown only when nothing waits and nothing is in flight, or nothing more can be written; else the slot is left closing and half closed |
| `SocketServer.Slot.RemoteEnd` | fengnet-src/socket_server.cpp:1031-1052 | The end of the remote stream keeps stream, line and soundness, raises SOCKET_CLOSE exactly when it is new to the service, and ends the socket only when nothing is left to send or nothing can be |
| `SocketServer.Slot.CloseWriteSide` | fengnet-src/socket_server.cpp:1148-1168 | close_write keeps the stream, and the line unless it gives the slot up, which it does exactly for a closing or half-closed slot; the slot stays sound; it never raises SOCKET_CLOSE |
| `SchedulerSafety.QueueInOnePlace` | fengnet-src/fengnet_server.cpp:264-328 | In every run every live queue is once in the global list, or held by one thread, or idle, unreleased and empty |
| `SchedulerSafety.OneDispatcher` | fengnet-src/fengnet_server.cpp:264-328 | No two threads ever hold the same queue, so no two workers dispatch one service at the same time |
| `SchedulerSafety.MessagesInOrder` | fengnet-src/fengnet_mq.cpp:87-157 | In every run the messages of the push steps that threads take with the handle in hand, read off the steps and not off the queue, are in order those the callback was given, those given to the drop function and those still waiting; nothing is dropped before the release; each queue is freed once, empty |
| `SchedulerSafety.NothingDangles` | fengnet-src/fengnet_server.cpp:129-160 | Every queue or context a thread holds or the global list names is alive, and a held context has a positive count |
| `SchedulerSafety.PushedOnce` | fengnet-src/fengnet_mq.cpp:16-27 | The assert of fengnet_globalmq_push: a queue that is pushed is not in the list |
| `SchedulerSafety.RestLosesNothing` | fengnet-src/fengnet_mq.cpp:139-157 | With all threads at rest and the global list empty, every message of a push step has been given to the callback or to the drop function, in order |
| `SchedulerProgress.NothingStranded` | fengnet-src/fengnet_server.cpp:264-328 | From every state reached, for every registered service whose initialisation has not failed, some continuation gives its callback exactly the messages that wait now, in order |
| `SchedulerProgress.NothingLeaks` | fengnet-src/fengnet_mq.cpp:178-205 | From every state reached, some continuation drops what waits in a released queue, in order, and frees it |
| `SchedulerProgress.TurnComes` | fengnet-src/fengnet_mq.cpp:16-44 | The global list is fair: a queue behind i others is in a thread's hands at the latest when threads have asked for a queue i + 1 times, whatever else happens |
| `SchedulerProgress.RegisteredExactly` | fengnet-src/fengnet_handle.cpp:82-120 | In every run a handle is in the table from its creation to its retirement and at no other time |
| `SchedulerProgress.PushEffect` | fengnet-src/fengnet_mq.cpp:139-157 | The push step appends to its queue whatever the queue was, lists the queue exactly when nobody tended it, and changes nothing else; the same that `Mailbox.MessageQueue.MqPush` promises of the ring |
| `SchedulerSafety.InvKept` | fengnet-src/fengnet_server.cpp:264-328 | Every step keeps places, reference counts, flags and histories consistent |
| `SchedulerSafety.GiveRefKept` | fengnet-src/fengnet_server.cpp:177-183 | The last reference given back leaves the context to be deleted exactly once |
| `SchedulerSafety.MarkKept` | fengnet-src/fengnet_mq.cpp:78-85 | mark_release pushes the queue exactly when nobody tends it |
| `Mailbox.MessageQueue.MqPush` | fengnet-src/fengnet_mq.cpp:139-157 | Appends to the sequence the ring stands for, growing it when full, and enters the global list exactly when the queue was not tended |
| `Mailbox.MessageQueue.MqPop` | fengnet-src/fengnet_mq.cpp:87-121 | Removes the first message; an empty queue is no longer tended; the overload threshold covers the remaining length |
| `Mailbox.MessageQueue.Expand` | fengnet-src/fengnet_mq.cpp:123-137 | Doubles the ring and keeps the order |
| `Mailbox.MessageQueue.MqLength` | fengnet-src/fengnet_mq.cpp:163-176 | The number of messages, also when the ring wraps |
| `Mailbox.MessageQueue.MarkRelease` | fengnet-src/fengnet_mq.cpp:78-85 | Sets the release flag; the queue joins the global list unless it is tended |
| `Mailbox.MessageQueue.MqRelease` | fengnet-src/fengnet_mq.cpp:187-205 | A released queue is drained, each message dropped once in order; another goes back to the global list |
| `TimerSpec.OnTime` | fengnet-src/fengnet_timer.cpp:115-125 | The k-th update of every run dispatches the nodes due at its tick, first those already known, then those the run adds for it in insertion order, and nothing else |
| `TimerSpec.NothingLate` | fengnet-src/fengnet_timer.cpp:44-53 | With positive delays nothing is added for a tick that has come |
| `Wheel.PlaceStable` | fengnet-src/fengnet_timer.cpp:64-84 | When the clock ticks, also over the 32-bit wrap, the list of a node due within 2^31 ticks changes only if that very list is the one moved |
| `Wheel.ShiftCanonical` | fengnet-src/fengnet_timer.cpp:55-84 | After the cascade of a tick every pending node lies in the list add_node would choose, in insertion order, and nowhere else |
| `Wheel.AddCanonical` | fengnet-src/fengnet_timer.cpp:24-53 | Adding a node keeps the canonical placement |
| `Wheel.NearIsDue` | fengnet-src/fengnet_timer.cpp:103-113 | The near slot of the current tick holds exactly the nodes due now, in insertion order |
| `Wheel.FireCanonical` | fengnet-src/fengnet_timer.cpp:103-113 | Taking that slot takes exactly what is due |
| `Wheel.LinkAllCell` | fengnet-src/fengnet_timer.cpp:55-62 | Re-adding a list under the current clock loses, doubles and reorders no node of any expiry |
| `TimingWheel.Timer.AddNode` | fengnet-src/fengnet_timer.cpp:24-42 | The mask loop links the node at the end of the chosen list and changes no other |
| `TimingWheel.Timer.TimerAdd` | fengnet-src/fengnet_timer.cpp:44-53 | The wheel goes on standing for the schedule with the node added, for every positive delay below 2^31 |
| `TimingWheel.Timer.MoveList` | fengnet-src/fengnet_timer.cpp:55-62 | Empties one list and re-adds its nodes in order |
| `TimingWheel.Timer.Shift` | fengnet-src/fengnet_timer.cpp:64-84 | Advances the 32-bit clock and moves the right list; its loop never leaves levels 0 to 3 |
| `TimingWheel.Timer.Execute` | fengnet-src/fengnet_timer.cpp:103-113 | Takes the current near slot |
| `TimingWheel.Timer.Update` | fengnet-src/fengnet_timer.cpp:115-125 | Dispatches what the schedule has for the new tick, and keeps the placement canonical |
| `ZeroPack.RoundTrip` | lualib-src/sproto/sproto.c:1330-1437 | Unpacking what was packed gives every byte string back, padded with zeros to a multiple of 8 |
| `ZeroPack.PackSize` | lualib-src/sproto/lsproto.c:673-684 | The packed size is at most n + 2 + 2 * ceil(n / 2048) for every input of n bytes |
| `ZeroPack.EmitSize` | lualib-src/sproto/sproto.c:1279-1315 | A unit that ends a raw run pays for the two bytes the run cost |
| `ZeroPack.EmitSizePadded` | lualib-src/sproto/sproto.c:1279-1315 | The same when the last unit is padded, whose zeros may be absorbed by a run |
| `ZeroPack.SpreadSqueeze` | lualib-src/sproto/sproto.c:1413-1433 | The nonzero bytes under their header give the unit back |
| `ZeroPackExact.PackExact` | lualib-src/sproto/sproto.c:1279-1383 | The packed bytes are those of the one canonical division of the padded input: runs begin with a unit without zeros, hold no unit with more than two, and end at 256 units or before a unit with more; every other unit stands alone |
| `ZeroPackExact.UnpackExact` | lualib-src/sproto/sproto.c:1385-1437 | A stream, whoever wrote it, unpacks to given bytes if and only if it is a sequence of whole segments, a header with one byte for each bit or a run of its stated length, that stand for these bytes |
| `ZeroPackBuffers.PackSeg` | lualib-src/sproto/sproto.c:1280-1315 | Size and bytes of one unit, written only inside the room that is left |
| `ZeroPackBuffers.WriteFf` | lualib-src/sproto/sproto.c:1318-1328 | A raw run with zeros for what lies behind the end of the input |
| `ZeroPackBuffers.PackUnit` | lualib-src/sproto/sproto.c:1343-1377 | One round of the loop keeps the output final up to the run under way |
| `ZeroPackBuffers.SprotoPack` | lualib-src/sproto/sproto.c:1331-1383 | Returns the packed size for every buffer size; when it fits, the buffer holds the packed input; nothing is written behind its end |
| `ZeroPackBuffers.SprotoUnpack` | lualib-src/sproto/sproto.c:1386-1437 | -1 exactly for streams that end inside a unit or run, else the size of the output, which is in the buffer when it fits |
| `SprotoWire.StructRoundTrip` | lualib-src/sproto/sproto.c:943-1056 | For every type import_type accepts and every choice of present fields, decoding the encoding hands back the same tags and values and leaves what follows alone |
| `SprotoWire.VersionsRoundTrip` | lualib-src/sproto/sproto.c:1164-1276 | A round trip between two versions of a type that agree on common tags: decoding with the second what the first encoded hands back the present fields whose tag the second has, in order and with their meaning, skips the others, and leaves what follows alone |
| `SprotoWire.AcrossTypes` | lualib-src/sproto/sproto.c:1208-1262 | For any two types: of each present field the reader gets what its own type makes of the word and body, fields it has no tag for are skipped, and one that does not suit fails the whole |
| `SprotoExact.DecodeExact` | lualib-src/sproto/sproto.c:1164-1276 | For every input and type: decoding succeeds with given fields and rest if and only if the input is a count, that many words, a sized part for each zero word and the rest, every word of a known tag suits its field, and the fields are these in order; a short header, a short part or an unsuitable word or part fails |
| `SprotoExact.FieldExact` | lualib-src/sproto/sproto.c:1219-1262 | A field decodes to a content if and only if its word and body carry it: the word only of a single integer or boolean, four or eight bytes of a number, no body of a single boolean, one width for all numbers of an array, sized items to the last byte |
| `SprotoShortest.EncodingShortest` | lualib-src/sproto/sproto.c:943-1056 | No input that decodes to the present fields is shorter than the encoding, for every type and every choice of fields, when the callback gives 64 bits only for numbers that need them |
| `SprotoWire.HeaderFits` | lualib-src/sproto/sproto.c:297-352 | However many fields are absent, at most maxn header words are used, so headers never reach the data area |
| `SprotoWire.MaxNSmall` | lualib-src/sproto/sproto.c:297-352 | maxn itself fits the header |
| `SprotoWire.WordsFit` | lualib-src/sproto/sproto.c:1022-1045 | Every header word fits 16 bits, so the check on skip words never fails |
| `SprotoWire.FieldRound` | lualib-src/sproto/sproto.c:1197-1262 | Each kind of field decodes to its meaning: small numbers from the word, 32-bit numbers sign-extended, arrays element by element |
| `SprotoBuffers.ImportType` | lualib-src/sproto/sproto.c:326-351 | Accepts exactly ascending tags, and computes maxn and base |
| `SprotoBuffers.FindTag` | lualib-src/sproto/sproto.c:647-671 | Finds the field of a tag, directly or by halving, or none |
| `SprotoBuffers.Widen` | lualib-src/sproto/sproto.c:817-831 | 32-bit elements become sign-extended 64-bit elements in the same place, none overwritten before it has moved |
| `SprotoBuffers.ExpandBytes` | lualib-src/sproto/sproto.c:753-765 | Sign extension byte by byte equals expand64 |
| `SprotoBuffers.EncodeIntegerArray` | lualib-src/sproto/sproto.c:768-854 | All elements in 32 bits, or all in 64 from the first that needs it on; fails only for lack of room |
| `SprotoBuffers.EncodeObjects` | lualib-src/sproto/sproto.c:857-884 | Sized items in order; fails exactly when four bytes more than needed are missing |
| `SprotoBuffers.EncodeField` | lualib-src/sproto/sproto.c:955-1018 | Size, header word and data of one field of any kind |
| `SprotoBuffers.PushRecord` | lualib-src/sproto/sproto.c:1022-1042 | The word of a field behind the skip word its tag needs |
| `SprotoBuffers.SprotoEncode` | lualib-src/sproto/sproto.c:944-1056 | The buffer starts with the encoding, whose length is returned; succeeds whenever the stated room is there; writes nothing behind it |
| `SprotoBuffers.SprotoDecode` | lualib-src/sproto/sproto.c:1164-1276 | Hands over the decoded fields and returns the bytes used, or -1 exactly when decoding fails, which `SprotoExact.DecodeExact` says for every input |
| `Framing.ChunksDoNotMatter` | lualib-src/lua-netpack.cpp:179-298 | Delivering chunk by chunk with the bytes left over equals parsing each socket's whole stream, for every split and mix of streams |
| `GateServer.ServeChunks` | lualib/snax/gateserver.lua:64-90 | Every sequence of chunks of any sockets, fed to the filter one by one with the queue emptied on "more": what is dispatched for each socket are the packages of its stream in order, and what stays pending is the incomplete rest |
| `GateServer.DispatchQueue` | lualib/snax/gateserver.lua:76-88 | Popping until nothing is left hands over the queued packages in order and leaves pending bytes alone |
| `Framing.ParseSplit` | lualib-src/lua-netpack.cpp:219-298 | Parsing may stop anywhere and go on with the bytes left over |
| `Framing.ParseIsExact` | lualib-src/lua-netpack.cpp:173-206 | A stream is its framed packages and a tail that holds no whole package |
| `Netpack.Queue.FilterData` | lualib-src/lua-netpack.cpp:219-298 | Hands over, directly or in the queue, the packages of pending bytes and chunk in order, keeps the rest, and touches no other socket |
| `Netpack.Queue.FilterFill` | lualib-src/lua-netpack.cpp:222-262 | The same when a record is pending, also when it holds one byte of the size |
| `Netpack.Queue.PushMore` | lualib-src/lua-netpack.cpp:180-206 | All whole packages of a chunk are queued and one record keeps the rest |
| `Netpack.Queue.FindUncomplete` | lualib-src/lua-netpack.cpp:84-108 | Unlinks the one record of a socket from its chain, and no other |
| `Netpack.Queue.SaveUncomplete` | lualib-src/lua-netpack.cpp:161-171 | Links a record; each socket has at most one |
| `Netpack.Queue.PushData` | lualib-src/lua-netpack.cpp:142-158 | Appends to the ring, which grows by 1024 in the same order when full |
| `Netpack.Queue.ExpandQueue` | lualib-src/lua-netpack.cpp:125-139 | The longer ring keeps the order |
| `Netpack.Queue.Pop` | lualib-src/lua-netpack.cpp:391-404 | The oldest package, or none |
| `Netpack.Queue.CloseUncomplete` | lualib-src/lua-netpack.cpp:209-216 | Forgets the pending bytes of one socket |
| `Modular.MulModP` | lualib-src/lua-crypt.cpp:789-809 | Exact product modulo P for all 64-bit b and all a up to P, with wraparound at every step |
| `Modular.PowModP` | lualib-src/lua-crypt.cpp:811-822 | Exact power modulo P, and terminates, for every positive exponent; only the pair (P, 1) is left unreduced |
| `Modular.PowModp` | lualib-src/lua-crypt.cpp:825-830 | Equals a^b mod P for every 64-bit a and positive b if and only if (a, b) is not (P, 1) |
| `Modular.SameSecret` | lualib-src/lua-crypt.cpp:847-882 | Both sides of the exchange derive the same secret |
| `Modular.PublicNonzero` | lualib-src/lua-crypt.cpp:853-854 | No public value is zero, so the other side never refuses it |
| `Modular.Exchange` | lualib-src/lua-crypt.cpp:864-882 | The public value of every nonzero secret |
| `Modular.Secret` | lualib-src/lua-crypt.cpp:847-860 | The common secret is y^x mod P if and only if (y, x) is not (P, 1), when it is P; zero inputs are refused |
| `Des.FinalInvertsInitial` | lualib-src/lua-crypt.cpp:202-224 | DES_FP inverts DES_IP on every pair of words |
| `Des.InitialInvertsFinal` | lualib-src/lua-crypt.cpp:197-220 | DES_IP inverts DES_FP |
| `Des.RoundsUndo` | lualib-src/lua-crypt.cpp:225-240 | The rounds with reversed subkeys take the rounds back one by one |
| `Des.CryptInverse` | lualib-src/lua-crypt.cpp:314-336 | des_crypt with pairwise reversed subkeys undoes des_crypt, for all tables, subkeys and blocks |
| `Des.BlockInverse` | lualib-src/lua-crypt.cpp:481-490 | The same on blocks of eight bytes |
| `Des.PaddingExact` | lualib-src/lua-crypt.cpp:372-412 | In both modes padding is removed exactly where it was added |
| `Des.DecodeExact` | lualib-src/lua-crypt.cpp:455-511 | A text decodes to a message if and only if it is the encoding of that message, for every key, table and padding mode |
| `DesStandard.CryptIsDes` | lualib-src/lua-crypt.cpp:314-336 | With the tables and the key schedule of the program, des_crypt gives for every key and every block the block that FIPS 46-3 determines, and no other; the standard is stated bit by bit with its own tables IP, E, P, PC1, PC2 and S1 to S8 |
| `DesStandard.EncodeIsDes` | lualib-src/lua-crypt.cpp:455-478 | desencode with a key of eight bytes gives a text if and only if the text is, block by block, the DES encryption of the padded message |
| `DesStandard.BlockIsDes` | lualib-src/lua-crypt.cpp:314-336 | The same for one block of eight bytes |
| `DesStandard.RoundIsF` | lualib-src/lua-crypt.cpp:228-241 | One DES_ROUND adds to the other half f(R, K) of the standard, bit by bit, with both halves turned by one place |
| `DesRounds.RoundLaw` | lualib-src/lua-crypt.cpp:228-241 | For all tables and subkeys: table j sees the six bits that the expansion E gives S-box j, added to the six bits of its part of the subkey, and the round adds up the eight entries |
| `DesRounds.SummedIsF` | lualib-src/lua-crypt.cpp:14-241 | SB1 to SB8 hold the S-boxes of the standard with P applied and turned by one place |
| `DesRounds.InitialPermutes` | lualib-src/lua-crypt.cpp:202-210 | DES_IP is the permutation IP with both halves turned by one place |
| `DesKeys.KeyLaw` | lualib-src/lua-crypt.cpp:246-310 | The subkeys of every round hold, bit by bit, the key bits that PC1, the turns of the halves and PC2 choose |
| `DesStandard.WordNumber` | lualib-src/lua-crypt.cpp:184-190 | GET_UINT32 reads the number whose digits to the base 256 are the four bytes, the highest first |
| `DesStandard.WordOfBytes` | lualib-src/lua-crypt.cpp:184-190 | Bit for bit, the word is the four bytes in their order |
| `DesBuffers.DesCrypt` | lualib-src/lua-crypt.cpp:314-336 | The sixteen rounds on two words write the specified block and nothing else; with the tables and keys of the program it is the DES block of `DesStandard.BlockIsDes` |
| `DesBuffers.DesMainKs` | lualib-src/lua-crypt.cpp:246-310 | The loop of des_main_ks fills the 32 subkeys of `DesKeys.KeyLaw` |
| `DesBuffers.DesKey` | lualib-src/lua-crypt.cpp:445-453 | A key of eight bytes gives its subkeys, any other an error |
| `DesBuffers.AddPadding` | lualib-src/lua-crypt.cpp:429-436 | The last block of a message, padded in either mode |
| `DesBuffers.RemoveIso` | lualib-src/lua-crypt.cpp:378-393 | The scan for the mark behind trailing zeros |
| `DesBuffers.RemovePkcs` | lualib-src/lua-crypt.cpp:401-412 | The claimed length when all claimed bytes agree |
| `DesBuffers.DesEncode` | lualib-src/lua-crypt.cpp:455-478 | Returns the encoding of every message, which `DesStandard.EncodeIsDes` identifies with DES |
| `DesBuffers.DesDecode` | lualib-src/lua-crypt.cpp:481-511 | Returns the decoded message, or an error exactly where the source raises one |

## Left out

- LPeg: run-time captures, the evaluation of captures, UTF ranges, Lua key tables, printing; a capture is its kind and range.
- LPeg: at run time findopen (3rd/lpeg/lpvm.c:208) folds a close entry into a recent open one, so that the capture takes one entry; the model always appends the close entry.
- LPeg: look-behind over an open call to a rule with captures, which lp_behind cannot see; the model asks for no captures with calls followed.
- LPeg: the limit on the backtrack stack and its growth; the model's stack has no bound.
- LPeg: patterns from Lua values, and the part of finalfix that resolves rule names; in the node array a set and a nested grammar take one node.
- LPeg: checkaux, getfirst, headfail and needfollow follow calls as deep as the grammar goes; here they follow at most `d` calls and answer conservatively behind that. Every result holds for every `d`, and `Stability.CompileStable` shows that large bounds all give the same code. hascaptures and fixedlen carry the source's marks.
- LPeg: a chain of jumps that never ends, which the source would follow forever; the model follows it as long as the code and then leaves it.
- LPeg: positions and offsets are unbounded integers; MAXOFF and MAXBEHIND are kept where they decide which code is emitted.
- Sockets: UDP, DNS, accept, epoll registration errors, socket options, statistics and the memory of buffers; the kernel's `write` and `read` answers are arbitrary.
- Sockets: the first, unlocked can_direct_write; a sender may try the lock at any time, which allows more runs than the source.
- Sockets: the 16-bit width of the count of messages in flight, at whose limit inc_sending_ref waits, and of the id's tag beside it; both are whole numbers in the model. reserve_id's stores after its exchange are one step.
- Sockets: events of a slot that has been reserved again before they are handled, and requests for an id served before the request that opens it.
- Analysis.HeadFail: that headfail and getfirst answer as sharply as they could is not claimed; a blunter answer makes slower code with the same meaning.
- Sockets: messages of one sender may overtake each other, because can_direct_write reads the lists before the counter; no order between separate sends is claimed.
- Scheduler: handle reuse after 2^24 registrations, growth of the handle table, names, the monitor, weights, sleeping workers and fengnet_context_dispatchall.
- Scheduler: callbacks are any sequence of pushes, grabs, creations and retirements by any threads.
- Timer: the wall clock and fengnet_timeout with a delay that is not positive, which sends at once.
- sproto: schema files beyond the tags of a type, maps, decimals, dumping; the callback's strings and structs are byte strings; lengths near 2^32, where the source's unsigned sums wrap.
- sproto: a type whose fields part is present but empty.
- Gate service: handlers that block, connections, limits and the listening socket.
- Netpack: Lua values and the freeing of buffers; a data buffer is the bytes read so far.
- Crypt: hashes, hex and base64, random keys.
- Crypt: the triple and weak-key parts of FIPS 46-3, which the program does not use.
- DesBuffers.RemovePkcs: when the claimed length exceeds the buffer the source reads in front of it; the result is refused either way, and the contract is silent on its value.
- C memory ordering: each atomic operation or locked section is one step.
