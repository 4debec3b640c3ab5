# PCRE 8.44: pattern compiler and DFA matcher

This project models the core of the PCRE library as it is vendored in this repository, and proves
what the code is there for: that compiled code means what the pattern means, that the DFA engine
finds exactly the matches of the code, and that the analyses and rewrites in between are right.

The model has 8-bit units, neither UTF nor Unicode properties, two-byte links and counts, and a
one-byte newline; the two exceptions are case-insensitive ranges with Unicode case data and the UTF-16
functions. Compiled code is a sequence of bytes, laid out as in `pcre_internal.h`. The fragment has
literals, negated characters, `.`, the type escapes, bitmap classes, `^`, `$`, `\A` and `\z`,
capturing and plain groups, alternation, all quantifiers, and subroutine calls.

How the parts fit together:

- `Opcodes`, `Tree`: opcode values, and the relation between bytes and the tree they are laid out for.
- `Meaning`, `Pattern`: what code and patterns match, as relations between two subject positions. Calls
  are read from a least set of facts that is closed under the groups of the pattern.
- `Expansion`: quantifiers as the compiler writes them out, with the atomic groups that some need, and that
  without those this keeps the meaning.
- `Sizing`: the length arithmetic of the first pass against the length the second pass emits.
- `Walk`, `Relocation`, `CodeBuffer`, `Emission`, `Items`, `Repeats`, `Moving`, `Wrapping`, `Copying`,
  `GroupRepeats`, `Groups`, `References`, `Compile`: the second pass. A class holds the buffer; its methods emit, move,
  copy and patch bytes in place, and each is proved against the tree it stands for.
- `Machine`, `Runs`, `Decoding`, `Program`: the state machine of a program. `DfaStates`, `Worklist`,
  `DfaExec`: the engine. `Rooms`: when it is sure to succeed. `Driver`: the loop over starting positions.
- `CodeScan`, `Widths`, `FixedLength`, `Emptiness`, `Anchored`, `FirstReq`: analyses. `Anchoring`, `Letters`: what
  they have to find, told by the pattern.
- `Backtrack`, `Closure`, `PropertyLists`, `Settling`, `Following`, `Comparing`, `Hardening`, `HardSets`,
  `Rewriting`, `AutoPossession`: auto-possessification against ordered backtracking, and exactly which
  repeats it makes possessive, told by single steps in `Onward`. `Finding`: backtracking against the
  meaning. `Trying`, `Ordering`: the order in which code and patterns try their matches.
- `Strictness`, `Passing`, `Ends`: what the rewriting leaves of the matches that the DFA engine reports,
  which are all of them, with calls that are not atomic. `Trailing`, `Reaching`, `Endings`: the same told
  by the pattern before it is compiled.
- `Regexes`, `Matching`: compiling and matching end to end. `Limits`: examples of what gets lost where a
  condition is not met. `Sets`: one lemma.
- `NameTable`, `CharClass`, `Utf16`, `HostOrder`: the smaller companions.

Assumptions about the character tables are stated where they are used: lower-casing identifies exactly the
characters that are equal up to case flipping (`Meaning.Env.Ok`); digits are word characters, spaces are
not, LF and CR are spaces, and character 255 is not a word character, because one comparison in the source
leaves it out (`PropertyLists.TablesOk`); other cases come in pairs and case sets are closed
(`CharClass.UcdOk`).

`dafny verify dfyconfig.toml` checks the whole project.

## Model

| member | source | states |
|---|---|---|
| Opcodes.Get | dependencies/rpm-specs/openresty-pcre/sources/pcre-8.44/pcre_internal.h:427-448 | the big-endian two-byte operand at a position, always below 65536 |
| Opcodes.Put | dependencies/rpm-specs/openresty-pcre/sources/pcre-8.44/pcre_internal.h:427-448 | storing an operand below 65536 and reading it back gives it; the code keeps its length |
| Meaning.CallsAreClosed | dependencies/rpm-specs/openresty-pcre/sources/pcre-8.44/pcre_dfa_exec.c:2792-2868 | as the engine runs calls: one matches exactly what one pass through the called group matches, except empty matches that the options forbid; the facts about calls are a fixed point |
| Machine.ExitItem | dependencies/rpm-specs/openresty-pcre/sources/pcre-8.44/pcre_dfa_exec.c:771-2647 | soundness of the instruction stepping: a run of the state machine that leaves an item has matched the item over exactly the positions it went through |
| Machine.ExitGroup | dependencies/rpm-specs/openresty-pcre/sources/pcre-8.44/pcre_dfa_exec.c:771-853 | a run that leaves a group has made one pass through it, or one or more if it is a loop |
| Runs.WalkItem | dependencies/rpm-specs/openresty-pcre/sources/pcre-8.44/pcre_dfa_exec.c:771-2647 | completeness: whatever an item means between two positions, the state machine can run |
| Runs.RunOfGroup | dependencies/rpm-specs/openresty-pcre/sources/pcre-8.44/pcre_dfa_exec.c:540-568 | from the branch starts of a group its ket is reached exactly at the ends of what one pass through the group matches |
| Decoding.SkipBranches | dependencies/rpm-specs/openresty-pcre/sources/pcre-8.44/pcre_dfa_exec.c:847-859 | following the links from a header ends at the ket of the group |
| Decoding.ItemDecodes | dependencies/rpm-specs/openresty-pcre/sources/pcre-8.44/pcre_internal.h:1885-2133 | the bytes laid out for a tree decode, at every instruction offset, to the instructions of the tree |
| Program.CalleeIsLaid | dependencies/rpm-specs/openresty-pcre/sources/pcre-8.44/pcre_compile.c:9553-9558 | every linked call of a program leads to the bracket of the first group with its number |
| DfaStates.Add | dependencies/rpm-specs/openresty-pcre/sources/pcre-8.44/pcre_dfa_exec.c:352-381 | a state is appended unless the list is full |
| DfaStates.ExpandRepeat | dependencies/rpm-specs/openresty-pcre/sources/pcre-8.44/pcre_dfa_exec.c:1163-1313 | for every kind of repeat of a character or type, the states added to both lists are those of the repeat with its minimum, maximum and possessiveness; with room it never fails |
| DfaStates.ExpandClassRepeat | dependencies/rpm-specs/openresty-pcre/sources/pcre-8.44/pcre_dfa_exec.c:2535-2647 | the same for the quantifier behind a class |
| DfaStates.OpenBranches | dependencies/rpm-specs/openresty-pcre/sources/pcre-8.44/pcre_dfa_exec.c:540-563 | a state for the start of every branch of a bracket, in order |
| DfaStates.ExpandOpening | dependencies/rpm-specs/openresty-pcre/sources/pcre-8.44/pcre_dfa_exec.c:824-860 | an opening bracket or optional group adds exactly the states its instruction leads to |
| DfaStates.ExpandClosing | dependencies/rpm-specs/openresty-pcre/sources/pcre-8.44/pcre_dfa_exec.c:771-962 | an alternative, a ket or an assertion adds exactly the states its instruction leads to |
| DfaStates.StatesExpand | dependencies/rpm-specs/openresty-pcre/sources/pcre-8.44/pcre_dfa_exec.c:771-2647 | the states added for an instruction other than a call are exactly the successors of the configuration |
| Worklist.HoldBack | dependencies/rpm-specs/openresty-pcre/sources/pcre-8.44/pcre_dfa_exec.c:658-668 | a state that still skips characters moves to the next list without anything being lost |
| Worklist.DropDuplicate | dependencies/rpm-specs/openresty-pcre/sources/pcre-8.44/pcre_dfa_exec.c:675-687 | dropping a state with the offset and count of an earlier one loses nothing: it has been expanded |
| Worklist.Expanded | dependencies/rpm-specs/openresty-pcre/sources/pcre-8.44/pcre_dfa_exec.c:575-853 | expanding a state keeps the worklist invariant: everything reachable is expanded or listed |
| Worklist.Complete | dependencies/rpm-specs/openresty-pcre/sources/pcre-8.44/pcre_dfa_exec.c:3096-3132 | when both lists are empty everything reachable has been expanded |
| DfaExec.RecordMatch | dependencies/rpm-specs/openresty-pcre/sources/pcre-8.44/pcre_dfa_exec.c:785-801 | the vector holds the last matches that fit, longest first, and the count is the number of matches or 0 if they do not all fit |
| DfaExec.InProgress | dependencies/rpm-specs/openresty-pcre/sources/pcre-8.44/pcre_dfa_exec.c:2804-2810 | is the group already being called at this position? |
| DfaExec.IsDuplicate | dependencies/rpm-specs/openresty-pcre/sources/pcre-8.44/pcre_dfa_exec.c:675-687 | a state is a duplicate exactly if an earlier one has its offset and count |
| DfaExec.ExpandCall | dependencies/rpm-specs/openresty-pcre/sources/pcre-8.44/pcre_dfa_exec.c:2792-2868 | a call adds exactly one state for each end the called group can match at; the chain of calls is as before on return; the loop error means that the call comes back to one in progress, and success that it does not; the error for too many ends only occurs on a subject of 500 characters or more; a call that does not come back and whose run fits into the inner workspace succeeds wherever there is room for one state at this position and for one at every other |
| DfaExec.RunCallee | dependencies/rpm-specs/openresty-pcre/sources/pcre-8.44/pcre_dfa_exec.c:2816-2840 | the called group is run with itself on the chain; the ends are exactly the facts about the call, each once; if the call does not come back, and its run and all that this run calls in turn fit into the inner workspace, it succeeds |
| DfaExec.ExpandState | dependencies/rpm-specs/openresty-pcre/sources/pcre-8.44/pcre_dfa_exec.c:758-2868 | one state that is not a duplicate: exactly its successors are added, and there is only an error if one of the lists has no room for what the instruction can add, or if it is a call that comes back or does not fit |
| DfaExec.PushCall | dependencies/rpm-specs/openresty-pcre/sources/pcre-8.44/pcre_dfa_exec.c:2804-2818 | the chain never holds a group and position twice, so nesting is bounded |
| DfaExec.ScanPosition | dependencies/rpm-specs/openresty-pcre/sources/pcre-8.44/pcre_dfa_exec.c:633-3094 | at one position each configuration is expanded at most once, and their number is bounded; afterwards the invariant of the worklist holds with nothing left at this position, and the ends found are those of the expanded configurations |
| DfaExec.InternalDfaExec | dependencies/rpm-specs/openresty-pcre/sources/pcre-8.44/pcre_dfa_exec.c:397-3146 | without an error the ends reported for a group are exactly the ends the group can match from the start, the vector and the return code are right, and the run terminates; a run succeeds only if no call it reaches comes back to one in progress, and reports that error only if one does; and it does succeed if none comes back, the workspace holds the lists that its own offsets and counts call for, and the same is true of every run that it calls, in the inner workspace |
| DfaExec.LayerSize | dependencies/rpm-specs/openresty-pcre/sources/pcre-8.44/pcre_dfa_exec.c:675-687 | the number of configurations that a run can have at one position, by its offsets and counts, which bounds how many expansions the engine does there |
| DfaExec.SpareRoom | dependencies/rpm-specs/openresty-pcre/sources/pcre-8.44/pcre_dfa_exec.c:352-390 | while fewer expansions have been done at a position than a run has configurations there, both lists have room, although each call made so far may hold back a state for every later position |
| Rooms.NoCallsSucceed | dependencies/rpm-specs/openresty-pcre/sources/pcre-8.44/pcre_dfa_exec.c:352-390 | a group that calls nothing is run successfully when the lists have a length given by the size of its code, and by the length of the subject only if it repeats characters |
| Rooms.SmallCallsSucceed | dependencies/rpm-specs/openresty-pcre/sources/pcre-8.44/pcre_dfa_exec.c:2792-2868 | so is a pattern whose called groups call nothing and fit into the inner workspace |
| Limits.CallSucceeds | dependencies/rpm-specs/openresty-pcre/sources/pcre-8.44/pcre_dfa_exec.c:2792-2868 | for `(a)(?1)` and a subject of less than 500 characters this is so, and all conditions for matching it are met |
| Limits.CallMeansTwo | dependencies/rpm-specs/openresty-pcre/sources/pcre-8.44/pcre_dfa_exec.c:2792-2868 | and on "aa" it has to find both characters |
| DfaExec.RunResult | dependencies/rpm-specs/openresty-pcre/sources/pcre-8.44/pcre_dfa_exec.c:3096-3145 | when the loop ends the recorded ends are all the ends of the group |
| Driver.SkipToFirst | dependencies/rpm-specs/openresty-pcre/sources/pcre-8.44/pcre_dfa_exec.c:3470-3487 | the next start with the known first character, in either case if it is caseless, or the end of the subject; no match starts at any of the positions skipped |
| Driver.FindReq | dependencies/rpm-specs/openresty-pcre/sources/pcre-8.44/pcre_dfa_exec.c:3587-3603 | the first position from a given one on with the required character, in either case if it is caseless |
| Driver.NoReqNoMatch | dependencies/rpm-specs/openresty-pcre/sources/pcre-8.44/pcre_dfa_exec.c:3573-3609 | if the required character does not occur behind the start, no match starts there or later |
| Driver.FirstIsEnough | dependencies/rpm-specs/openresty-pcre/sources/pcre-8.44/pcre_dfa_exec.c:3632-3642 | for an anchored pattern a failure at the first start is a failure at all |
| Driver.PcreDfaExec | dependencies/rpm-specs/openresty-pcre/sources/pcre-8.44/pcre_dfa_exec.c:3429-3673 | the match found is at the first start that matches at all, with all its ends; no match is reported only if no start matches; skipping starts, the cached required character and stopping after one attempt change nothing; the loop error is reported only if calls come back to themselves; if the run from every start succeeds there is no error |
| Expansion.SingleMeans | dependencies/rpm-specs/openresty-pcre/sources/pcre-8.44/pcre_compile.c:5876-6011 | the EXACT, UPTO, STAR, QUERY and PLUS items that replace a quantified character or type match exactly the runs with the number of characters the quantifier allows |
| Expansion.OneRep | dependencies/rpm-specs/openresty-pcre/sources/pcre-8.44/pcre_compile.c:6013-6042 | the quantifier stored behind a class does so too |
| Expansion.NestSplit | dependencies/rpm-specs/openresty-pcre/sources/pcre-8.44/pcre_compile.c:6259-6315 | the nested optional copies of a group match at most their number of repetitions |
| Expansion.NestJoin | dependencies/rpm-specs/openresty-pcre/sources/pcre-8.44/pcre_compile.c:6259-6315 | and every smaller number of repetitions is matched by them |
| Expansion.GroupSplit | dependencies/rpm-specs/openresty-pcre/sources/pcre-8.44/pcre_compile.c:6085-6430 | what the replicated copies of a group match is a number of repetitions within the bounds of a greedy or lazy quantifier |
| Expansion.GroupJoin | dependencies/rpm-specs/openresty-pcre/sources/pcre-8.44/pcre_compile.c:6085-6430 | every number of repetitions within the bounds is matched by the replicated copies |
| Expansion.CalleeFound | dependencies/rpm-specs/openresty-pcre/sources/pcre-8.44/pcre_compile.c:9553-9558 | although groups are replicated, the first group with a number is still the one the pattern names |
| Expansion.CallsExpand | dependencies/rpm-specs/openresty-pcre/sources/pcre-8.44/pcre_compile.c:7574-7642 | calls match the same in the pattern and in the replicated tree, however deeply they nest, exactly if no call makes an empty match where the options forbid one |
| Expansion.ExpansionKeepsMeaning | dependencies/rpm-specs/openresty-pcre/sources/pcre-8.44/pcre_compile.c:5680-6430 | unless the options forbid empty matches of calls that are made, the code tree of a pattern without atomic groups matches exactly the stretches that the pattern means |
| Expansion.ExpansionIsSound | dependencies/rpm-specs/openresty-pcre/sources/pcre-8.44/pcre_compile.c:5680-6430 | with any options it matches nothing else |
| Expansion.CallsTakeUnfiltered | dependencies/rpm-specs/openresty-pcre/sources/pcre-8.44/pcre_dfa_exec.c:785-789 | a condition that can be checked beforehand: neither option is set, or every match of every called group takes a character |
| Limits.FilteredCall | dependencies/rpm-specs/openresty-pcre/sources/pcre-8.44/pcre_dfa_exec.c:785-789 | without it a match is missed: `(b?)(?1)a` on "a" when empty matches are forbidden |
| Sizing.NodeFits | dependencies/rpm-specs/openresty-pcre/sources/pcre-8.44/pcre_compile.c:4588-4643 | for every item, quantified in any way and possessively as well, pass 1 counts exactly the size of the code tree that pass 2 emits, and on top of that only each character that may occur no time at all, once for every copy of the groups around it |
| Sizing.ChoiceFits | dependencies/rpm-specs/openresty-pcre/sources/pcre-8.44/pcre_compile.c:8600-8604 | the same for a sequence of alternatives, of which pass 1 adds up all |
| Sizing.GroupSize | dependencies/rpm-specs/openresty-pcre/sources/pcre-8.44/pcre_compile.c:6085-6430 | the size of the copies of a quantified group or call, with the atomic group around them if there is one |
| Sizing.Account | dependencies/rpm-specs/openresty-pcre/sources/pcre-8.44/pcre_compile.c:4588-4643 | the step that adds what was emitted since the last item and rewinds the code pointer: the total and the pending part add up, and it fails exactly on overflow |
| Sizing.MeasureSingle | dependencies/rpm-specs/openresty-pcre/sources/pcre-8.44/pcre_compile.c:5861-6042 | where the code pointer stands after the quantifier of a character, type or class |
| Sizing.MeasureGroup | dependencies/rpm-specs/openresty-pcre/sources/pcre-8.44/pcre_compile.c:6162-6181 | the length after the quantifier of a group, with the overflow tests on the copies |
| Sizing.MeasureRegex | dependencies/rpm-specs/openresty-pcre/sources/pcre-8.44/pcre_compile.c:8358-8604 | the length of a group: pass 1 fails exactly if it exceeds the limit |
| Sizing.PreCompile | dependencies/rpm-specs/openresty-pcre/sources/pcre-8.44/pcre_compile.c:9386-9408 | pass 1 over the whole pattern: the accumulated length, or nothing exactly if it exceeds the maximum; the whole code tree fits into it |
| Walk.FirstIn | dependencies/rpm-specs/openresty-pcre/sources/pcre-8.44/pcre_compile.c:2081-2225 | the first bracket with a number that a walk over the code by instruction lengths meets lies inside the walk |
| Walk.WalkItem | dependencies/rpm-specs/openresty-pcre/sources/pcre-8.44/pcre_compile.c:2081-2225 | a walk over the code of an item stays on its instructions and meets exactly its numbered brackets, in order |
| Relocation.RelocateItem | dependencies/rpm-specs/openresty-pcre/sources/pcre-8.44/pcre_compile.c:6196-6220 | code that is moved or copied as a block is the same item at its new place, if the calls and their targets moved along |
| Relocation.AdjustItem | dependencies/rpm-specs/openresty-pcre/sources/pcre-8.44/pcre_compile.c:4021-4057 | after the operands of the calls have been adjusted the code is still the same item, for the targets as they will be |
| CodeBuffer.Compiler.constructor | dependencies/rpm-specs/openresty-pcre/sources/pcre-8.44/pcre_compile.c:9410-9473 | a buffer of the measured length with nothing emitted and no forward reference |
| CodeBuffer.Compiler.MoveUp | dependencies/rpm-specs/openresty-pcre/sources/pcre-8.44/pcre_compile.c:6113-6121 | everything from an offset on moves up and the gap is filled; nothing before it changes |
| CodeBuffer.Compiler.CopyToEnd | dependencies/rpm-specs/openresty-pcre/sources/pcre-8.44/pcre_compile.c:6200 | the bytes of a group are appended again; nothing before changes |
| Items.EmitAtom | dependencies/rpm-specs/openresty-pcre/sources/pcre-8.44/pcre_compile.c:8206-8209 | emits exactly one item for the character, type or class |
| Items.FindBracket | dependencies/rpm-specs/openresty-pcre/sources/pcre-8.44/pcre_compile.c:2081-2225 | the first bracket with the number, up to the end of the code, or none |
| Items.EmitCall | dependencies/rpm-specs/openresty-pcre/sources/pcre-8.44/pcre_compile.c:7574-7642 | emits one call: linked if the group has been started, else listed as a forward reference; of the modelled errors, the one for a missing group exactly if the number is larger than that of every group |
| Repeats.RepeatCharacter | dependencies/rpm-specs/openresty-pcre/sources/pcre-8.44/pcre_compile.c:5844-5996 | turns the character emitted last into the items of its quantifier |
| Repeats.RepeatFixed | dependencies/rpm-specs/openresty-pcre/sources/pcre-8.44/pcre_compile.c:5876-6011 | emits the items of a quantifier over a character or type |
| Repeats.RepeatClass | dependencies/rpm-specs/openresty-pcre/sources/pcre-8.44/pcre_compile.c:6013-6042 | stores the quantifier behind the class emitted last |
| Repeats.Possessify | dependencies/rpm-specs/openresty-pcre/sources/pcre-8.44/pcre_compile.c:6459-6543 | after a mandatory part has been skipped, the repeat emitted last becomes possessive; what has no possessive opcode goes into an atomic group |
| Moving.FindRecurse | dependencies/rpm-specs/openresty-pcre/sources/pcre-8.44/pcre_compile.c:2243-2370 | the next call at or behind an offset, and no call before it |
| Moving.AdjustRecurse | dependencies/rpm-specs/openresty-pcre/sources/pcre-8.44/pcre_compile.c:4020-4057 | every call from an offset on that leads into the code to be moved, or is a listed forward reference, is adjusted, and nothing else changes |
| Moving.GroupMoved | dependencies/rpm-specs/openresty-pcre/sources/pcre-8.44/pcre_compile.c:6109-6148 | after adjustment and move the code is laid out at its new place, every resolved call leads to the same group, and the list holds exactly the operands of the unresolved calls |
| Moving.InsertBefore | dependencies/rpm-specs/openresty-pcre/sources/pcre-8.44/pcre_compile.c:6109-6148 | the whole step: a header is put in front of what was emitted last |
| Wrapping.Wrap | dependencies/rpm-specs/openresty-pcre/sources/pcre-8.44/pcre_compile.c:6527-6542 | everything emitted from an offset on goes into one atomic group |
| Wrapping.WrapCall | dependencies/rpm-specs/openresty-pcre/sources/pcre-8.44/pcre_compile.c:5776-5801 | a call that is to be repeated goes into an atomic group, and its entry in the list of forward references follows |
| Copying.CopyEmitted | dependencies/rpm-specs/openresty-pcre/sources/pcre-8.44/pcre_compile.c:6196-6220 | a copy of a group is the same group again; the copied list entries are exactly its unresolved operands |
| Copying.CopyGroup | dependencies/rpm-specs/openresty-pcre/sources/pcre-8.44/pcre_compile.c:6196-6220 | appends a copy of the group together with its list entries; the next copy can be made from this one |
| GroupRepeats.SetLoop | dependencies/rpm-specs/openresty-pcre/sources/pcre-8.44/pcre_compile.c:6343-6429 | makes the last copy a loop by its ket, possessive or not, and marks its bracket or not; a possessive atomic group becomes a plain one |
| GroupRepeats.EmitNest | dependencies/rpm-specs/openresty-pcre/sources/pcre-8.44/pcre_compile.c:6259-6300 | emits the optional copies with the chain of pending brackets running through their links |
| GroupRepeats.CloseNests | dependencies/rpm-specs/openresty-pcre/sources/pcre-8.44/pcre_compile.c:6305-6315 | closes the pending brackets from the innermost out, following the chain: the result is the properly nested optional copies |
| GroupRepeats.RepeatGroup | dependencies/rpm-specs/openresty-pcre/sources/pcre-8.44/pcre_compile.c:6040-6542 | after any quantifier of a group or atomic call the code holds exactly the replicated group of the expansion |
| Groups.ReverseChain | dependencies/rpm-specs/openresty-pcre/sources/pcre-8.44/pcre_compile.c:8521-8540 | the links of an open group, which lead from alternative to alternative back to the bracket, are reversed in place: each then holds the length of its alternative, and no other byte changes |
| Groups.GroupCloses | dependencies/rpm-specs/openresty-pcre/sources/pcre-8.44/pcre_compile.c:8521-8560 | with its links reversed and its ket added the open group is laid out: following the links visits each branch and ends at the ket, which links back to the bracket |
| References.FillItem | dependencies/rpm-specs/openresty-pcre/sources/pcre-8.44/pcre_compile.c:9545-9560 | filling in one operand links that call and leaves all others as they were |
| References.OperandCalls | dependencies/rpm-specs/openresty-pcre/sources/pcre-8.44/pcre_compile.c:9545-9552 | the operands on the list belong to calls of the tree |
| Compile.CompileNode | dependencies/rpm-specs/openresty-pcre/sources/pcre-8.44/pcre_compile.c:4453-8270 | emits exactly the items of one node with any quantifier, or fails only for a call of a number larger than any group |
| Compile.CompileSequence | dependencies/rpm-specs/openresty-pcre/sources/pcre-8.44/pcre_compile.c:4453-8270 | emits exactly the items of a sequence |
| Compile.CompileRegex | dependencies/rpm-specs/openresty-pcre/sources/pcre-8.44/pcre_compile.c:8309-8611 | emits a group: bracket, alternatives with their links, ket |
| Compile.FillReferences | dependencies/rpm-specs/openresty-pcre/sources/pcre-8.44/pcre_compile.c:9532-9560 | links every listed call to the first bracket with its number; fails exactly if some called group does not exist |
| Compile.CompilePattern | dependencies/rpm-specs/openresty-pcre/sources/pcre-8.44/pcre_compile.c:9390-9560 | of the modelled errors, none is reported exactly if the measured length fits and every called group exists; the code is that of the expansion of the pattern and no longer than measured, whatever the quantifiers; without atomic groups it is a program |
| CodeScan.FollowOne | dependencies/rpm-specs/openresty-pcre/sources/pcre-8.44/pcre_compile.c:1797-1811 | following one more group keeps the chain of followed groups distinct and finite |
| CodeScan.OnChain | dependencies/rpm-specs/openresty-pcre/sources/pcre-8.44/pcre_compile.c:1803-1806 | is the group being followed already? |
| FixedLength.LengthIsFixed | dependencies/rpm-specs/openresty-pcre/sources/pcre-8.44/pcre_compile.c:1736-2058 | whatever has a length in the sense of the scan matches only stretches of that length, through nested groups and calls |
| FixedLength.ItemLength | dependencies/rpm-specs/openresty-pcre/sources/pcre-8.44/pcre_compile.c:1750-2040 | the length of one item, exactly as the definition over the tree gives it |
| FixedLength.FindFixedLength | dependencies/rpm-specs/openresty-pcre/sources/pcre-8.44/pcre_compile.c:1736-2058 | with the called groups put in place of the calls that can be followed: there is a length exactly if no part is a repeat whose limits differ, an optional or looping group, a group with alternatives of different lengths, or a call that is not followed, and then it is that of the shortest match; calls that cannot be followed yet have their own code; the scan terminates; for a length that is reported, no sum formed on the way is too large for an int exactly if the length itself is not |
| FixedLength.NoLength | dependencies/rpm-specs/openresty-pcre/sources/pcre-8.44/pcre_compile.c:1736-2058 | the same for one item, at any place and with any groups being followed |
| FixedLength.RepIsEven | dependencies/rpm-specs/openresty-pcre/sources/pcre-8.44/pcre_compile.c:1877-1990 | a repeat has a length exactly if its two limits are the same, and it is that number |
| Widths.NothingShorter | dependencies/rpm-specs/openresty-pcre/sources/pcre-8.44/pcre_compile.c:1736-2058 | no match is shorter than the length of the shortest match that is read off the tree |
| FixedLength.LengthIsExact | dependencies/rpm-specs/openresty-pcre/sources/pcre-8.44/pcre_compile.c:1709-1733 | a length found for a group of a program is that of everything the group can match |
| FixedLength.LengthFits | dependencies/rpm-specs/openresty-pcre/sources/pcre-8.44/pcre_compile.c:1742 | without calls no length in a program is too large for an int |
| Emptiness.NotPassedAlts | dependencies/rpm-specs/openresty-pcre/sources/pcre-8.44/pcre_compile.c:2396-2746 | alternatives that cannot be passed without a character match no empty stretch |
| Emptiness.PassedAlts | dependencies/rpm-specs/openresty-pcre/sources/pcre-8.44/pcre_compile.c:2396-2746 | the converse if every call in them is followed, which it is outside the called group and the groups being followed: alternatives that can be passed match the empty subject |
| Emptiness.ItemDemands | dependencies/rpm-specs/openresty-pcre/sources/pcre-8.44/pcre_compile.c:2416-2740 | must the item match something? Exactly as the definition over the tree says |
| Emptiness.CallDemands | dependencies/rpm-specs/openresty-pcre/sources/pcre-8.44/pcre_compile.c:2428-2481 | a call from inside the called group, and one being followed already, is passed over; others are followed once |
| Emptiness.CouldBeEmptyBranch | dependencies/rpm-specs/openresty-pcre/sources/pcre-8.44/pcre_compile.c:2396-2746 | the answer is exactly the definition over the tree, up to the end of the scan; the scan terminates |
| Emptiness.MatchesEmpty | dependencies/rpm-specs/openresty-pcre/sources/pcre-8.44/pcre_compile.c:2396-2746 | for a whole pattern: "no" means that no match is empty; if all calls are followed "yes" means that the empty subject is matched |
| Anchored.IsAnchored | dependencies/rpm-specs/openresty-pcre/sources/pcre-8.44/pcre_compile.c:8662-8732 | yes exactly if every alternative starts with a start anchor, an unlimited repeat of any character, or a group like that |
| Anchored.AnchoredIsEarlier | dependencies/rpm-specs/openresty-pcre/sources/pcre-8.44/pcre_compile.c:8662-8732 | for such a pattern a match at some start implies a match at every earlier start |
| Anchored.PatternIsAnchored | dependencies/rpm-specs/openresty-pcre/sources/pcre-8.44/pcre_compile.c:8662-8732 | both for a whole pattern |
| Anchoring.ChoiceIsAnchored | dependencies/rpm-specs/openresty-pcre/sources/pcre-8.44/pcre_compile.c:8662-8732 | told by the pattern: its code is anchored exactly if every alternative starts with `^` or `\A`, an unlimited repeat without a minimum of any character, or a group that has to match and is anchored itself |
| Anchoring.CodeIsAnchored | dependencies/rpm-specs/openresty-pcre/sources/pcre-8.44/pcre_compile.c:8662-8732 | and making repeats possessive does not change that |
| FirstReq.StepLiteral | dependencies/rpm-specs/openresty-pcre/sources/pcre-8.44/pcre_compile.c:8221-8258 | behind a literal character what is recorded is true of every match so far, and so is what to fall back on |
| FirstReq.StepGroup | dependencies/rpm-specs/openresty-pcre/sources/pcre-8.44/pcre_compile.c:7894-7938 | the same behind a group, given what is true of its contents |
| FirstReq.StepOptional | dependencies/rpm-specs/openresty-pcre/sources/pcre-8.44/pcre_compile.c:5694-5700 | a quantifier that allows nothing makes the fall-back true |
| FirstReq.StepTwice | dependencies/rpm-specs/openresty-pcre/sources/pcre-8.44/pcre_compile.c:5844-5848 | a repeat of more than one makes the repeated character required |
| FirstReq.MergeClaims | dependencies/rpm-specs/openresty-pcre/sources/pcre-8.44/pcre_compile.c:8440-8477 | what is kept when alternatives are joined is true of all of them |
| FirstReq.ScanNode | dependencies/rpm-specs/openresty-pcre/sources/pcre-8.44/pcre_compile.c:5680-8270 | one item with its quantifier: the characters are those of the definition, and true of every match |
| FirstReq.ScanChoice | dependencies/rpm-specs/openresty-pcre/sources/pcre-8.44/pcre_compile.c:8420-8477 | every match of the pattern starts with the first character if there is one, and holds the required character, behind the first one if that is set |
| Letters.LettersFound | dependencies/rpm-specs/openresty-pcre/sources/pcre-8.44/pcre_compile.c:8420-8477 | what has to be found in a pattern without alternatives: the first character is known exactly if a match begins with a letter, behind assertions only, and the required one is the last letter that every match takes, unless that is the first character |
| Letters.LastLetterVaries | dependencies/rpm-specs/openresty-pcre/sources/pcre-8.44/pcre_compile.c:8221-8258 | a required letter at the end carries the mark that something of variable length comes before it exactly if something does |
| Letters.MergeKeeps | dependencies/rpm-specs/openresty-pcre/sources/pcre-8.44/pcre_compile.c:8440-8477 | of two alternatives a first character is kept exactly if both have the same, and then a required one exactly if both have one and it is the same letter |
| Regexes.RecordedLetters | dependencies/rpm-specs/openresty-pcre/sources/pcre-8.44/pcre_compile.c:9640-9734 | so for such a pattern that is not anchored it can be told from its letters which characters are recorded |
| Regexes.RecordedLate | dependencies/rpm-specs/openresty-pcre/sources/pcre-8.44/pcre_compile.c:9720-9734 | and for an anchored one that ends with a letter, that it is recorded exactly if something of variable length comes before it |
| Regexes.PcreCompile | dependencies/rpm-specs/openresty-pcre/sources/pcre-8.44/pcre_compile.c:9574-9734 | compiles a pattern, makes exactly the repeats possessive that have to be unless that is switched off, and records exactly: anchored or not, which is told by the pattern, the first character unless anchored, the required one unless it is of no use; what is recorded is true of every match; ordered backtracking over the code finds the first match in the order of the pattern |
| Regexes.IsDependable | dependencies/rpm-specs/openresty-pcre/sources/pcre-8.44/pcre_compile.c:9582-9585 | the condition of the following can be seen before compiling: with options on empty matches every called group takes a character, and repeats are not made possessive or none of a called group can be the last thing in it to take a character |
| Regexes.FoundMeans | dependencies/rpm-specs/openresty-pcre/sources/pcre-8.44/pcre_dfa_exec.c:3429-3673 | under the same condition the match found is at the first start where the pattern as written means anything, all ends reported are meant, and the last end that is meant is reported, calls included |
| Regexes.FoundIsMeant | dependencies/rpm-specs/openresty-pcre/sources/pcre-8.44/pcre_dfa_exec.c:3429-3673 | whatever the options and rewritings, an end that is reported is meant |
| Regexes.AllFound | dependencies/rpm-specs/openresty-pcre/sources/pcre-8.44/pcre_dfa_exec.c:3429-3673 | an end that is meant is reported if the code was not rewritten or no character stands behind it that a repeat could take which can be seen to be the last of the pattern to take one |
| Regexes.AllFoundExactly | dependencies/rpm-specs/openresty-pcre/sources/pcre-8.44/pcre_dfa_exec.c:3429-3673 | for a pattern all of whose alternatives end with an unlimited repeat of the same item, compiled by default: exactly the ends are reported that are meant and behind which the item does not match; so all ends are reported if and only if none of them stops short of a character that the repeat could take |
| Limits.LostEnd | dependencies/rpm-specs/openresty-pcre/sources/pcre-8.44/pcre_compile.c:3170-3185 | whatever compiling `a+` by default returns, on "aa" it loses the shorter end |
| Limits.LostMatch | dependencies/rpm-specs/openresty-pcre/sources/pcre-8.44/pcre_compile.c:3183-3201 | and with a call a match can be lost altogether: whatever compiling `(a+)b|c(?1)a` by default returns, it matches nothing on "caa", which the pattern means |
| Limits.NothingLost | dependencies/rpm-specs/openresty-pcre/sources/pcre-8.44/pcre_compile.c:3183-3201 | with the b inside the called group, `(a+b)(?1)`, nothing is lost, however it is compiled |
| Regexes.NothingMissed | dependencies/rpm-specs/openresty-pcre/sources/pcre-8.44/pcre_dfa_exec.c:3429-3673 | compiled by default too, no match is found exactly if the pattern as it was written means nothing at any start, given that calls take characters where the options demand it and that those that end in front of a character which a repeat could take are spared by the rewriting |
| Matching.Match | dependencies/rpm-specs/openresty-pcre/sources/pcre-8.44/pcre_dfa_exec.c:3429-3673 | compiling and matching in one, told only by what the pattern means: the start is the first one at which it means anything, everything reported is meant, the last end that is meant is reported, every other one is too unless repeats were made possessive and a trailing repeat of the pattern could take the character behind it, and no match is reported only if nothing is meant; if every called group calls nothing and fits into the inner workspace, which can be seen from the pattern, there is no error in a workspace of a size given by the pattern and the subject |
| Backtrack.DecodeForward | dependencies/rpm-specs/openresty-pcre/sources/pcre-8.44/pcre_internal.h:2195-2260 | every instruction leads forward, except that the ket of a loop leads back to its bracket |
| Finding.FindsMatches | dependencies/rpm-specs/openresty-pcre/sources/pcre-8.44/pcre_compile.c:3120-3887 | ordered backtracking over code without calls finds a match among those asked for if there is one, and only matches |
| Finding.FirstIsMatch | dependencies/rpm-specs/openresty-pcre/sources/pcre-8.44/pcre_compile.c:3120-3887 | so the first match is a match, and there is none only if nothing matches |
| Trying.ItemPicks | dependencies/rpm-specs/openresty-pcre/sources/pcre-8.44/pcre_internal.h:1936-2105 | backtracking over the code of an item goes on at the ends of the item one after the other, in an order read off the tree: alternatives from left to right, and by the opcode more or fewer passes first |
| Trying.CallsAnswer | dependencies/rpm-specs/openresty-pcre/sources/pcre-8.44/pcre_compile.c:2808-2830 | a call goes on at the first end of the called group only |
| Ordering.RunsInOrder | dependencies/rpm-specs/openresty-pcre/sources/pcre-8.44/pcre_compile.c:5876-6042 | the passes of a quantified character, greedy ones from the longest run down, lazy ones from the shortest up |
| Ordering.NestInOrder | dependencies/rpm-specs/openresty-pcre/sources/pcre-8.44/pcre_compile.c:6259-6315 | the nested optional copies of a group try more or fewer passes first, as the quantifier says |
| Ordering.GroupInOrder | dependencies/rpm-specs/openresty-pcre/sources/pcre-8.44/pcre_compile.c:6040-6542 | the copies of a quantified group or call try its passes in the order of the quantifier; a possessive one has the first of its ends only, whether it goes into an atomic group or loops possessively |
| Ordering.NodeInOrder | dependencies/rpm-specs/openresty-pcre/sources/pcre-8.44/doc/pcrematching.3:53-71 | every node tries its ends in the order of the pattern as it is written |
| Ordering.FirstPreferred | dependencies/rpm-specs/openresty-pcre/sources/pcre-8.44/doc/pcrematching.3:53-71 | backtracking over the compiled code finds the first end, in the order of the pattern, of those asked for, with calls that take the first match of the called group |
| Ordering.PreferredIsMeant | dependencies/rpm-specs/openresty-pcre/sources/pcre-8.44/doc/pcrematching.3:53-71 | without calls the ends that are tried are exactly those of what the pattern means |
| Regexes.FirstIsPreferred | dependencies/rpm-specs/openresty-pcre/sources/pcre-8.44/doc/pcrematching.3:53-71 | the same for the code in use, with the repeats made possessive |
| Closure.ProgramIsClosed | dependencies/rpm-specs/openresty-pcre/sources/pcre-8.44/pcre_compile.c:3147-3245 | whatever can follow an instruction of a program, when it is run or walked over, is an instruction of the program |
| PropertyLists.GetRepeatBase | dependencies/rpm-specs/openresty-pcre/sources/pcre-8.44/pcre_compile.c:2797-2806 | the first opcode of the run of thirteen that a repeat belongs to |
| PropertyLists.GetChrPropertyList | dependencies/rpm-specs/openresty-pcre/sources/pcre-8.44/pcre_compile.c:2915-3100 | the list describes exactly the characters of the item and whether it can match nothing; items that are not of a single character are refused |
| PropertyLists.CharOutside | dependencies/rpm-specs/openresty-pcre/sources/pcre-8.44/pcre_compile.c:3486-3634 | yes exactly if the item, as its list describes it, does not match the character, with either newline; some control characters are never outside of a dollar |
| PropertyLists.BitmapsApart | dependencies/rpm-specs/openresty-pcre/sources/pcre-8.44/pcre_compile.c:3262-3358 | yes exactly if no character is in the first set and in the second, or its complement |
| PropertyLists.TableIsRight | dependencies/rpm-specs/openresty-pcre/sources/pcre-8.44/pcre_compile.c:719-738 | two types, or a type and an assertion, that the table lets follow each other have no character in common |
| PropertyLists.TableEntries | dependencies/rpm-specs/openresty-pcre/sources/pcre-8.44/pcre_compile.c:719-738 | the entries of the table for the types and assertions of the model, all of them |
| PropertyLists.TableIsExact | dependencies/rpm-specs/openresty-pcre/sources/pcre-8.44/pcre_compile.c:719-738 | with ordinary character tables two types may follow each other exactly if they have no character in common, and only the dot is not put before a dollar |
| PropertyLists.ExclusiveIsExact | dependencies/rpm-specs/openresty-pcre/sources/pcre-8.44/pcre_compile.c:3248-3635 | so between literal characters, classes and types other than the dots the comparison says yes exactly if there is no character in common |
| PropertyLists.Apart | dependencies/rpm-specs/openresty-pcre/sources/pcre-8.44/pcre_compile.c:3248-3635 | yes exactly if the two items are exclusive: literal characters and classes are compared character by character, with both newlines, and two types by the table; anything else is taken to overlap |
| PropertyLists.ExclusiveExcludes | dependencies/rpm-specs/openresty-pcre/sources/pcre-8.44/pcre_compile.c:3248-3635 | items that are exclusive have no character in common, and a dollar does not hold in front of one |
| Following.KetFollows | dependencies/rpm-specs/openresty-pcre/sources/pcre-8.44/pcre_compile.c:3178-3201 | past the end of a group: what follows is stuck where the repeated item matches, or, after a greedy repeat, gets no further there and is certain to succeed |
| Following.OpenFollows | dependencies/rpm-specs/openresty-pcre/sources/pcre-8.44/pcre_compile.c:3203-3219 | into a group: all alternatives must follow |
| Following.ZeroFollows | dependencies/rpm-specs/openresty-pcre/sources/pcre-8.44/pcre_compile.c:3221-3237 | past an optional group: its contents and what is behind it must follow |
| Following.ItemFollows | dependencies/rpm-specs/openresty-pcre/sources/pcre-8.44/pcre_compile.c:3243-3635 | past an item without a common character, if it may be empty and what is behind it follows |
| Comparing.CompareOpcodes | dependencies/rpm-specs/openresty-pcre/sources/pcre-8.44/pcre_compile.c:3120-3640 | yes exactly if no way from behind the repeat leads, by steps that take no character, to something that blocks: a loop, a call, a skipped group, an item that has a character in common with the repeated one, and for a lazy repeat the end of a group or of the pattern; and if there are no more ways than the limit allows nested walks; the walks used up are counted exactly |
| Comparing.SettledFollows | dependencies/rpm-specs/openresty-pcre/sources/pcre-8.44/pcre_compile.c:3108-3201 | if all that follows is settled, going on from an earlier position always fails or, for a greedy repeat, gets no further than that position while going on from the last one always succeeds |
| Onward.SettledIsFree | dependencies/rpm-specs/openresty-pcre/sources/pcre-8.44/pcre_compile.c:3120-3640 | everything behind an offset is settled exactly if no such way leads to something that blocks |
| Onward.CountWays | dependencies/rpm-specs/openresty-pcre/sources/pcre-8.44/pcre_compile.c:3203-3237 | there is one way more than the walk starts other walks |
| Onward.OnToIsStep | dependencies/rpm-specs/openresty-pcre/sources/pcre-8.44/pcre_compile.c:3160-3245 | the steps are those of the state machine at the end of the subject, apart from calls, assertions, loops, skipped groups and brackets marked as matching nothing |
| Rewriting.DueIsDeserved | dependencies/rpm-specs/openresty-pcre/sources/pcre-8.44/pcre_compile.c:3659-3887 | a repeat is rewritten exactly if it is not possessive, has a choice or is of a class, nothing behind it blocks, and there are at most 1000 ways |
| Rewriting.SettledSame | dependencies/rpm-specs/openresty-pcre/sources/pcre-8.44/pcre_compile.c:3669-3887 | code in which some repeats have been made possessive settles the same as before, after the same number of nested walks |
| Rewriting.NoneBetween | dependencies/rpm-specs/openresty-pcre/sources/pcre-8.44/pcre_compile.c:3669-3887 | the walk by opcode lengths meets every instruction of the program |
| HardSets.HardOneMore | dependencies/rpm-specs/openresty-pcre/sources/pcre-8.44/pcre_compile.c:3680-3770 | making one more repeat of the tree possessive is making the set with that one possessive |
| HardSets.HardFound | dependencies/rpm-specs/openresty-pcre/sources/pcre-8.44/pcre_compile.c:3680-3770 | the group a call leads to is where it was, and is the rewritten group |
| Hardening.HardProgram | dependencies/rpm-specs/openresty-pcre/sources/pcre-8.44/pcre_compile.c:3680-3770 | overwriting the opcode of a repeat with its possessive form leaves a program |
| Hardening.SameProgram | dependencies/rpm-specs/openresty-pcre/sources/pcre-8.44/pcre_compile.c:3680-3770 | and every other instruction is what it was |
| AutoPossession.LongestDecides | dependencies/rpm-specs/openresty-pcre/sources/pcre-8.44/pcre_compile.c:3108-3117 | when what comes next follows, only the longest run of the repeat matters, for any match that may end anywhere from some position on |
| AutoPossession.SameBt | dependencies/rpm-specs/openresty-pcre/sources/pcre-8.44/pcre_compile.c:3120-3887 | ordered backtracking finds the same from every offset, position and nesting of open groups in the code before and after one repeat was made possessive |
| AutoPossession.SameFirst | dependencies/rpm-specs/openresty-pcre/sources/pcre-8.44/pcre_compile.c:3120-3887 | so the first match of every subject from every start is the same, for calls nested to any depth, among all matches or among those that reach far enough |
| AutoPossession.SameFirstMatch | dependencies/rpm-specs/openresty-pcre/sources/pcre-8.44/pcre_compile.c:3120-3887 | in particular the very first match, given the options on empty matches, is the same |
| AutoPossession.AutoPossessify | dependencies/rpm-specs/openresty-pcre/sources/pcre-8.44/pcre_compile.c:3659-3887 | the walk over the code, which overwrites opcodes in place, makes possessive exactly those repeats of the original code that deserve it: from behind them no way leads to something that blocks, and there are at most 1000 ways; nothing else changes, the first matches are those of the original, and no more is matched |
| Strictness.StricterMatches | dependencies/rpm-specs/openresty-pcre/sources/pcre-8.44/pcre_compile.c:3686-3770 | code with possessive repeats matches only what the original matched, calls included |
| Passing.RunIsStuck | dependencies/rpm-specs/openresty-pcre/sources/pcre-8.44/pcre_compile.c:3120-3640 | where the repeated item matches, a run of the engine through settled code gets nowhere but to a ket that the walk has passed |
| Passing.RunGoesThrough | dependencies/rpm-specs/openresty-pcre/sources/pcre-8.44/pcre_compile.c:3178-3201 | and from everywhere there is a run to such a ket |
| Passing.RunKept | dependencies/rpm-specs/openresty-pcre/sources/pcre-8.44/pcre_dfa_exec.c:1163-1313 | the rewritten code makes every run that the original one makes to the ket of a group, unless it ends in front of a character that a repeat made possessive in that group could take, from behind which the walk passes this ket; then there is a run that ends further on |
| Ends.PassKept | dependencies/rpm-specs/openresty-pcre/sources/pcre-8.44/pcre_dfa_exec.c:540-853 | the same for what one pass through a group, or the whole pattern, matches |
| Ends.CallsKept | dependencies/rpm-specs/openresty-pcre/sources/pcre-8.44/pcre_dfa_exec.c:2792-2868 | calls, which the engine does not treat as atomic, match in the rewritten code what they matched in the original exactly if, given the calls of the rewritten code, each one that ends in front of such a character is still matched |
| Ends.ContainedCalls | dependencies/rpm-specs/openresty-pcre/sources/pcre-8.44/pcre_compile.c:3183-3201 | which is so if what follows each repeat of a called group is settled before the ket of that group |
| Ends.KeptEnd | dependencies/rpm-specs/openresty-pcre/sources/pcre-8.44/pcre_compile.c:3170-3185 | then a match is lost only if it ends in front of a character that a repeat could take from behind which the end of the pattern is passed |
| Ends.AllEndsKept | dependencies/rpm-specs/openresty-pcre/sources/pcre-8.44/pcre_compile.c:3170-3201 | if every repeat is settled before the ket of each called group around it and before the end of the pattern, the rewritten code matches exactly what the original did, calls included |
| Ends.SameReach | dependencies/rpm-specs/openresty-pcre/sources/pcre-8.44/pcre_compile.c:3659-3887 | if calls match what they did, the rewritten code fails at the same starts, and its longest match is as long |
| Ends.EndsLeft | dependencies/rpm-specs/openresty-pcre/sources/pcre-8.44/pcre_compile.c:3170-3185 | if every alternative ends with an unlimited possessive repeat of the same atom and only such repeats pass the end, exactly those matches are left behind which the atom does not match |
| Trailing.ChoiceTrails | dependencies/rpm-specs/openresty-pcre/sources/pcre-8.44/pcre_compile.c:5680-6430 | the repeats that can be the last to take a character, and the parts that can be skipped, are among those that the pattern as it is written shows |
| Reaching.PassedIsTrailing | dependencies/rpm-specs/openresty-pcre/sources/pcre-8.44/pcre_compile.c:3120-3640 | only from behind such a repeat does the walk pass the end of the group |
| Endings.SettledIsContained | dependencies/rpm-specs/openresty-pcre/sources/pcre-8.44/pcre_compile.c:3183-3201 | if a called group of the pattern has no such repeat, what follows each repeat of its code is settled before its ket |
| Endings.EndIsHardened | dependencies/rpm-specs/openresty-pcre/sources/pcre-8.44/pcre_compile.c:3170-3185 | if every alternative of the pattern ends with an unlimited repeat that is not lazy, each alternative of the code compiled by default ends with a possessive one |
| NameTable.InsertSorted | dependencies/rpm-specs/openresty-pcre/sources/pcre-8.44/pcre_compile.c:8980-9001 | inserting a name behind everything that is not greater keeps the table sorted |
| NameTable.InsertNamed | dependencies/rpm-specs/openresty-pcre/sources/pcre-8.44/pcre_compile.c:8987-8990 | a duplicate comes behind the earlier entries with its name |
| NameTable.BuildIsIndex | dependencies/rpm-specs/openresty-pcre/sources/pcre-8.44/pcre_compile.c:9478-9487 | the table built from a list of names is sorted, and the entries of each name are those of the list, in the order of the pattern |
| NameTable.Earlier | dependencies/rpm-specs/openresty-pcre/sources/pcre-8.44/pcre_compile.c:8982-8985 | memcmp over the length of the new name, with the test for a proper prefix, is the order of strcmp |
| NameTable.NewTable | dependencies/rpm-specs/openresty-pcre/sources/pcre-8.44/pcre_compile.c:8992-9005 | moving the tail of the flat array up by one entry and storing the new one inserts it |
| NameTable.CompileData.AddName | dependencies/rpm-specs/openresty-pcre/sources/pcre-8.44/pcre_compile.c:8973-9007 | the flat array holds the old entries with the new one inserted at its place |
| NameTable.CreateTable | dependencies/rpm-specs/openresty-pcre/sources/pcre-8.44/pcre_compile.c:9478-9487 | the table of all groups found in the first pass |
| NameTable.GetStringNumber | dependencies/rpm-specs/openresty-pcre/sources/pcre-8.44/pcre_get.c:115-126 | no such name exactly if no entry has it, else the number of an entry with the name |
| NameTable.GetStringTableEntries | dependencies/rpm-specs/openresty-pcre/sources/pcre-8.44/pcre_get.c:198-237 | no such name exactly if no entry has it, else the first and the last entry with it: all its entries and no others |
| CharClass.GetOthercaseRange | dependencies/rpm-specs/openresty-pcre/sources/pcre-8.44/pcre_compile.c:4136-4175 | the next run of characters whose single other cases are a run, or the next character with a case set; everything before it has no other case |
| CharClass.RunVariants | dependencies/rpm-specs/openresty-pcre/sources/pcre-8.44/pcre_compile.c:4230-4255 | the other cases of a run are case variants, and too few to reach beyond both ends of the range |
| CharClass.Class.AddRange | dependencies/rpm-specs/openresty-pcre/sources/pcre-8.44/pcre_compile.c:4276-4336 | adds exactly the range |
| CharClass.Class.AddOtherCases | dependencies/rpm-specs/openresty-pcre/sources/pcre-8.44/pcre_compile.c:4213-4257 | adds or widens the range by case variants only, and misses none |
| CharClass.Class.AddToClass | dependencies/rpm-specs/openresty-pcre/sources/pcre-8.44/pcre_compile.c:4201-4336 | adds exactly the range and, if case does not matter, the case variants of its characters |
| CharClass.Class.AddListToClass | dependencies/rpm-specs/openresty-pcre/sources/pcre-8.44/pcre_compile.c:4365-4381 | adds exactly the characters of the list, run by run, except possibly the given one |
| Utf16.Ord2Utf | dependencies/rpm-specs/openresty-pcre/sources/pcre-8.44/pcre16_ord2utf16.c:72-81 | stores the encoding of a character and nothing else: the character itself, or a high surrogate with its upper and a low one with its lower ten bits above 0x10000 |
| Utf16.GetCharInc | dependencies/rpm-specs/openresty-pcre/sources/pcre-8.44/pcre_internal.h:846-854 | the character at a position, read without a check |
| Utf16.EncodingIsUnique | dependencies/rpm-specs/openresty-pcre/sources/pcre-8.44/pcre16_ord2utf16.c:72-81 | different sequences of characters have different encodings |
| Utf16.ValidUtf | dependencies/rpm-specs/openresty-pcre/sources/pcre-8.44/pcre16_valid_utf16.c:96-126 | no error exactly for the encodings of sequences of characters; otherwise the units before the fault are valid, and the code and offset say what is wrong |
| Utf16.ReadAll | dependencies/rpm-specs/openresty-pcre/sources/pcre-8.44/pcre_internal.h:846-854 | reading a valid string character by character gives the sequence it encodes |
| HostOrder.ConvertPieces | dependencies/rpm-specs/openresty-pcre/sources/pcre-8.44/pcre16_utf16_utils.c:84-127 | converting a string in two pieces with the byte order carried over is converting it in one |
| HostOrder.OrderDoesNotMatter | dependencies/rpm-specs/openresty-pcre/sources/pcre-8.44/pcre16_utf16_utils.c:103-118 | the same string with its bytes exchanged, read in the other order, gives the same result |
| HostOrder.NoMarksLeft | dependencies/rpm-specs/openresty-pcre/sources/pcre-8.44/pcre16_utf16_utils.c:106-115 | unless they are kept no byte order marks are left |
| HostOrder.ToHostByteOrder | dependencies/rpm-specs/openresty-pcre/sources/pcre-8.44/pcre16_utf16_utils.c:84-127 | without marks every unit comes out as it is if the order is that of the host, else with its bytes exchanged; behind a mark the unit is as it was exactly if that mark was 0xfeff; kept marks come out as 0xfeff, others take no place; the result is the length of the output, also when it is the input: what has not been read yet has not been overwritten |
| HostOrder.AllBrought | dependencies/rpm-specs/openresty-pcre/sources/pcre-8.44/pcre16_utf16_utils.c:103-118 | every unit goes where it belongs, by its place, the mark before it and the order given |
| HostOrder.OrderBehind | dependencies/rpm-specs/openresty-pcre/sources/pcre-8.44/pcre16_utf16_utils.c:103-115 | the order behind a part of the input is that of its last mark, or the one given |

## Left out

Parts of the repository:

- Pattern text: parsing, options inside patterns, callouts and verbs; the compiler is driven by an abstract syntax tree that already carries the group numbers, and the largest of them stands for the number of groups counted in the first pass.
- Lookaround, conditional groups, back references, atomic groups, `\K`, `\G`, `\b`, `\R`, `\X`, `\C`, `\h`, `\v`, Unicode properties and multi-line anchors.
- Partial matching, restarting, the shortest-match option, start bits and minimum length from studying, the first-line option and the skip to line starts.
- Newlines of more than one unit or of several kinds.
- Just-in-time compilation, printing, information queries, memory allocation, the C++ wrapper, and the build and container files.
- `pcre_get.c`: only the two table searches; how they obtain the table from the compiled pattern is not part of this model.

Things a modelled part does that the model does not:

- Compile.CompilePattern: the error for left recursion, the growth of the reference list and its limit are not modelled. Code that needs an atomic or possessive group is emitted, measured, and shown to try its ends in the order of the pattern, but neither engine nor backtracking is modelled for it; the theorems about sets of matches are for patterns without such groups.
- GroupRepeats.SetLoop: whether a looped group gets the mark that it may match nothing is left open, because the test runs on code that is still being emitted; everything is proved for both outcomes.
- Sizing.Account: the work area and the error for overrunning it are modelled as pointer arithmetic only, not as bytes.
- DfaExec.InternalDfaExec: the length of the lists that is shown to suffice is not the least one; a run may also succeed in a smaller workspace. Calls are only shown to succeed on subjects of less than 500 characters, because the inner vector may be too small on longer ones.
- DfaExec.ExpandCall: a nested run gets a workspace and a vector of fixed size, as in the source; the vector is allocated instead of lying on the stack.
- FixedLength.FindFixedLength: lengths are unbounded integers; without calls they always fit an int, and with calls the contract says when a reported length does, but what the C code computes after a sum has wrapped around is not modelled.
- Emptiness.CouldBeEmptyBranch: only finished code is scanned, not code that is still being compiled.
- Anchored.IsAnchored: the back reference map and the count of atomic groups are not needed in the fragment.
- Driver.PcreDfaExec: option checks and the checks of the compiled pattern before the loop.
- Regexes.PcreCompile: the search for an asserted first character finds nothing in the fragment and is left out; the option to anchor every pattern at compile time is the same as asking for the first start only.
- Comparing.CompareOpcodes: the treatment of atomic groups and assertions when the end of a group is passed.
- PropertyLists.TypesApart: the rows of the table for `\R`, `\h`, `\v`, `\X` and their complements, which overlap as sets.
- Ends.KeptEnd: whether an end that one alternative loses comes back through another one is a question about the whole pattern, so the exact condition on the ends is for patterns that end with the repeat, and the general one is only sufficient; the exact condition on calls is `Ends.CallsKept`.
- CharClass.Class.AddToClass: characters above 255 are kept as ranges; their UTF-8 encoding in the class is not modelled, and neither is the 16- and 32-bit form.
- NameTable.CompileData.AddName: checks for permitted duplicates happen earlier and are not modelled.
- Utf16.Encode: shifts and masks on units are written as division and remainder.
