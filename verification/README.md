# Verified models of Minijail's compilers, descriptor set-up, marshalling and constant parser

Minijail confines a process.  This project models, in Dafny, the parts of it where a mistake
would silently change what a jail permits, and proves what each of them is for.

* **The optimising policy compiler** (`tools/compiler.py`, `tools/bpf.py`): filter statements become
  a DAG of 64-bit tests, the tests are lowered to 32-bit loads and comparisons, the DAG is
  flattened backwards into jumps with 8-bit offsets, and a dynamic program builds a search tree
  over the syscall numbers.  The classic-BPF machine is the one of `simulate`.  Files: `Bits`,
  `Machine`, `Blocks`, `Flatten`, `Filters`, `Lowering`, `FilterStatement`, `Sorting`, `Ranges`,
  `RangeTests`, `BstCost`, `Bst`, `SearchLimits`, `PolicyCompiler`.
* **The C policy compiler** (`syscall_filter.c`, `bpf.c`): lines become linked instruction blocks with
  symbolic labels, the blocks are flattened and the labels resolved in one backward pass.  The
  machine gains the scratch memory.  Files: `Labels`, `Compare`, `BlockList`, `SyscallFilter`, `LabelUse`,
  `Encoding`, `PolicyLine`, `PolicyItems`, `PolicyFile`; `Agreement` relates the two compilers.
* **Descriptor redirection in the child** (`libminijail.c`): relocate, move pipe ends, `dup2`, close.
  Files: `FdRedirect`, and `Sets` for counting.
* **Marshalling and the split entry** (`libminijail.c`, `libminijailpreload.c`, `util.c`): the jail built by
  API calls is serialised, rebuilt by the preloaded library, and entered in two halves.  Files:
  `Jail`, `Marshal`, `Unmarshal`, `Api`, `Acceptance`, `Layouts`, `Enter`, `Effects`.
* **The constant-expression parser** (`util.c`), in place on a NUL-terminated buffer.  Files: `Constant`, `Words`.

Code that changes state in the source is a method or a class here (visitors, the search with its
memo table, block lists, the label table, the fd table, the marshalling cursor, the jail, the parser's
buffer), proved against specification functions; the functions then carry the theorems.
`dafny verify dfyconfig.toml` checks everything.

## How the pieces fit

* `PolicyCompiler.CompileFile` composes `CompileFilterStatement` (DAG, lowering, flattening),
  `ConvertToRanges`, the linear chain or the search tree, the forwarding visitor and the flattener into
  `Implements`: for every architecture, syscall number and arguments, the seven of `simulate` or the six of the
  kernel, the emitted program returns the policy's decision.  `StrategiesAgree` and `Agreement.CompilersAgree` are corollaries.
* `PolicyFile.CompileFilter` composes `CompilePolicyLine`, the block lists, `FlattenBlockList` and
  `ResolveJumps`; the meaning of the emitted code is proved on symbolic labels
  (`SyscallFilter.FilterRuns`) and carried over by `Encoding.EncodedRuns` and `Labels.ResolveRuns`.  Whether a
  file compiles is read off its lines (`Compiles`): length, distinct filters, number of labels.
* `Enter.PreloadedRun` starts at the API calls (`Api.Builds`), goes through the launch, the wire format
  and the pipe (`Unmarshal.PipeRoundTrip`) and ends at the effects of the two entries (`Enter.SplitEnter`).

## Where a promise holds only under a condition

* A statement whose last action is `allow` is compiled to an unconditional allow in an allowlist
  (`tools/compiler.py:327-328`), dropping its conditional filters.  `ShortcutDropsFilter` is a concrete
  case.  `AllowingIsFaithful` and `DroppedIsUnfaithful` are the two sides a caller can check,
  `OneConditionFaithfulIff` the equivalence for a statement with one condition, and `StatementFaithfulIff` the
  exact condition in terms of arguments.  The end-to-end theorem speaks of what is compiled.
* The comment at `tools/compiler.py:171-173` calls the tree that is found the absolute minimum.  It is the
  cheapest of the trees that are searched: chains by frequency, and splits anywhere in the gaps between ranges.
  It is also the cheapest when chains may be in any order and tests may cut off the outer edges, provided that
  one test tells each range apart: it is a single number or starts at 0 (`OptIsLowerBound`).  Without that
  proviso `EdgeTestsAreCheaper` and `FrequencyOrderIsDearer` give cheaper trees; and even with it a tree that tests
  one number ahead of a search, which is never tried, can be cheaper still (`TestThenTreeIsCheaper`).
* A jail comes back from its serialisation as it was if and only if it has at most `NGROUPS_MAX` supplementary groups,
  no filesystem rule grants nothing, its ruleset descriptor is not 0 (`Restorable`), and it holds the filter it
  announces (not `Torn`); through the pipe it must also fit in 65535 bytes, which only the receiver checks
  (`PipeRoundTrip`).  A run opens the ruleset anew, so that it is the run's descriptor that counts (`Receivable`).
* `minijail_copy_jail` promises an identical jail (`libminijail.h:666-673`).  The copy lacks what is not sent; it is
  identical exactly under `CopyIsIdenticalIff`.  In particular a filter that is set but not yet in use is dropped while its
  length is kept, and raising the filter flag afterwards gives a torn jail (`CopyTears`): the run of calls of
  `TearingIsRefused` builds one that the library refuses, and one with a long first mount source is read as another
  jail without any error (`TornReadsMount`).
* The two halves of a split entry do exactly what one entry does, each effect in the same root, if and only if the
  jail does not both make and join a network namespace and does not remount /proc while changing its root
  (`SplitsCleanly`).  The second case is ordinary: `ChrootedProcIsOutside` shows a jail whose launching side replaces
  the /proc of the outer root, before the library changes the root.  Also the order of one entry is kept only by
  jails that do not ask for the launcher's last effects together with the library's first ones (`SplitOrder`).
* A constant expression may end in a stray `|` after a plain constant, but not after a parenthesis; the
  comment at `util.c:284-297` does not mention it.  `ParseIff` has it on both sides of the equivalence.
* The assertion at `libminijail.c:3147-3148` says that an unused descriptor will always be found.  That
  depends on how many are open.  Set-up succeeds when the open and the replaced descriptors, one for each preserved
  descriptor and one for each pipe end, fit an fd_set (`Roomy`); it fails when all are open and two redirections
  overlap, and `FullTableOverlaps` is such an input with two preserved descriptors.
* Two filters for one syscall cannot be compiled by `syscall_filter.c` even where duplicates are allowed
  (`ResolvableWhenDistinct`).

## Model

| member | source | states |
|---|---|---|
| Machine.Interpret | tools/bpf.py:94-133 | the interpreter loop computes the outcome and the instruction count of the recursive semantics, raising exactly on a bad load, an unknown instruction or return value, or running off the end |
| Machine.Simulate | tools/bpf.py:87-133 | simulation on packed data: missing arguments are zero, surplus ones ignored |
| Machine.DecodeRetValue | tools/bpf.py:113-130 | the names reported for return values invert the encoding of actions, up to cutting an errno to 16 bits |
| Machine.CheckedReturns | tools/bpf.py:94-133 | a program whose jumps stay forward and inside, whose offsets fit 8 bits and whose loads stay below a size always ends in a return on data of that size, or at a load on shorter data; nothing behind it is reached |
| Machine.LoadsArg | tools/bpf.py:80-92 | the two words at an argument's offsets are the low and high halves of that argument |
| Machine.ExecExtendsRun | tools/bpf.py:94-133 | the machine with scratch memory behaves like `simulate` on programs that do not use it |
| Machine.TestByHalves | tools/bpf.py:540-593 | a 64-bit comparison is decided by comparisons of the halves, for each operator |
| Machine.ReturnValues | tools/bpf.py:67-74 | the value returned for each of the eight actions, in figures, and the action that each value is named by |
| Machine.RunIsVisits | tools/bpf.py:94-133 | the outcome and the instruction count are those of a chain of positions, each reached from the one before by what its instruction does to the program counter and the register, the last one returning, failing to load, unknown, or leaving the program |
| Bits.AndBits | tools/bpf.py:111-112 | every bit of an AND is the conjunction of the two bits |
| Bits.LeWord | tools/bpf.py:91-92 | a packed word has its least significant byte first |
| Flatten.EmitJmpLands | tools/bpf.py:618-638 | whatever the two distances, short or long, the emitted jump lands exactly on its target |
| Flatten.BranchPlaced | tools/bpf.py:646-674 | the code emitted in front of placed successors runs like the block it was emitted for |
| Flatten.FlatteningVisitor.Visit | tools/bpf.py:646-674 | emitting a block records where it starts, and every recorded offset still runs like its block |
| Flatten.FlatteningVisitor.Accept | tools/bpf.py:278-283 | depth-first visit of shared blocks: each is emitted once, recorded offsets never change, and a block visited now is at distance 0 |
| Flatten.FlatteningVisitor.AcceptValidateArch | tools/bpf.py:246-257 | the architecture check kills on a mismatch and otherwise loads the number and runs its successor, which is at distance 0 |
| Flatten.FlattenDag | tools/bpf.py:596-674 | on data of any size running the flattened program equals the denotation of the DAG, shared blocks and long jumps included; every jump is forward, in bounds and fits 8 bits |
| Lowering.NewAtomBranches | tools/bpf.py:313-350 | rewriting the eight operators to four, with swapped targets and the negated mask of `in`, keeps the branch taken |
| Lowering.LowerAtomBranches | tools/bpf.py:540-593 | the graph of 32-bit tests takes the branch of the 64-bit comparison, for every operator, constant and argument, shortcuts for a zero high half included |
| Lowering.LowerAtomCorrect | tools/bpf.py:540-593 | if the targets of an atom are lowered, the lowered atom gives the atom's verdict |
| Lowering.LoweringVisitor.Accept | tools/bpf.py:459-593 | the copying visitor maps every block of a shared DAG to a lowered block with the same verdict |
| Lowering.Lower | tools/bpf.py:466-469 | lowering preserves the verdict of whole DAGs |
| FilterStatement.CompileClause | tools/compiler.py:338-343 | the loop over atoms builds a DAG that goes to the action exactly when all atoms hold |
| FilterStatement.CompileDnf | tools/compiler.py:333-343 | the loop over conjunctions goes to the action exactly when one of them holds |
| FilterStatement.BuildFilterDag | tools/compiler.py:329-344 | the DAG built by the reversed loop over filters returns the action of the first filter whose expression holds, else the last action |
| FilterStatement.CompileFilterStatement | tools/compiler.py:313-355 | no block exactly on the early return; otherwise straight code that answers with the first match |
| FilterStatement.StatementFaithfulIff | tools/compiler.py:327-328 | a compiled statement does what it says on all arguments if and only if the early return is not taken or every filter that can be the first to match allows |
| FilterStatement.AllowingIsFaithful | tools/compiler.py:327-328 | without the early return, or with nothing but allowing filters, a compiled statement does what it says |
| FilterStatement.DroppedIsUnfaithful | tools/compiler.py:327-328 | with the early return and a first filter that does not allow, on a clause of satisfiable atoms on different arguments, some arguments get another action than the statement says |
| FilterStatement.OneConditionFaithfulIff | tools/compiler.py:327-328 | a statement with one such condition is faithful if and only if in denylist mode, or its last action does not allow, or its filter allows |
| FilterStatement.SatisfiableIff | tools/bpf.py:313-350 | an atom holds of some argument unless it is `< 0`, `> 2^64 - 1` or `& 0` |
| FilterStatement.ShortcutDropsFilter | tools/compiler.py:327-328 | a statement with an errno filter and a final allow is compiled to an unconditional allow |
| Ranges.RunEnd | tools/compiler.py:95-101 | the inner loop finds the maximal run of consecutive numbers with equal filters |
| Ranges.ConvertToRanges | tools/compiler.py:91-103 | an ordered and maximal cover of exactly the numbers of the entries, each with its entry's filter and each range as frequent as the entries in it together |
| RangeTests.SingleRangeDecides | tools/compiler.py:106-136 | the tests for one range send a number to its action exactly when it lies in the range, and the reported cost bounds the tests met |
| RangeTests.ResolveDenotes | tools/bpf.py:260-283 | with the number in the accumulator a tree of number tests means what it resolves to |
| RangeTests.CompileRangesLinear | tools/compiler.py:139-152 | the chain decides every number, and the frequency-weighted number of tests is at most the reported cost, whatever number of each range is asked for |
| BstCost.MatchesUnique | tools/compiler.py:205-206 | the bounds alone identify the subproblem, so a memo keyed on them never answers another one |
| BstCost.OptTighter | tools/compiler.py:180-188 | moving a bound onto the edge of the ranges it encloses never raises the optimal cost |
| BstCost.GapEdge | tools/compiler.py:180-188 | wherever a split lies in a gap, one of the two edges of the gap does at least as well |
| BstCost.SortedIsCheapest | tools/compiler.py:139-152 | when one test tells each range apart, no order of a chain costs less than the order of frequency |
| BstCost.LowerEdgeSaves | tools/compiler.py:207-217 | cutting off the space before the first range saves at most that range's test |
| BstCost.UpperEdgeSaves | tools/compiler.py:207-217 | cutting off the space behind the last range saves at most that range's test |
| BstCost.OptIsLowerBound | tools/compiler.py:171-188 | no tree of tight leaves, single tests, chains by frequency and splits anywhere in the gaps costs less than the recurrence; nor, if every range is one number or starts at 0, any tree that also has chains in any order and tests at the outer edges |
| BstCost.OptIsReached | tools/compiler.py:219-254 | some tree that is searched costs exactly that |
| Bst.BstBuilder.Generate | tools/compiler.py:200-254 | the memoised search returns the optimal cost and a subtree that decides every number within its bounds, untested tight leaves included; every memo entry stays right for the one subproblem it can be asked for |
| Bst.BstBuilder.Candidate | tools/compiler.py:230-251 | one candidate split is kept exactly when it is strictly cheaper |
| Bst.SplitGood | tools/compiler.py:245-251 | two subtrees that are right within their bounds make a right tree under one comparison, and its weighted tests stay within the added cost |
| Bst.CompileBst | tools/compiler.py:160-256 | the whole tree decides every 32-bit number, its weighted tests are at most the reported cost, no tree that is searched is cheaper, and no tree with chains in any order and edge tests either if every range is one number or starts at 0 |
| SearchLimits.EdgeTestsAreCheaper | tools/compiler.py:171-173 | two ranges that a tree with tests at the outer edges decides with five weighted tests, where the search reports six |
| SearchLimits.FrequencyOrderIsDearer | tools/compiler.py:139-152 | a wide and a single range for which the chain against the order of frequency costs 11, and everything that is searched 12 or more |
| SearchLimits.TestThenTreeIsCheaper | tools/compiler.py:213-254 | six single numbers for which one test ahead of a tree gives 119 weighted tests, where the search reports 120 |
| PolicyCompiler.CompileEntries | tools/compiler.py:283-287 | each statement gets an entry with its number, frequency and a filter block that answers like the statement |
| PolicyCompiler.ArgFilterForwardingVisitor.Accept | tools/bpf.py:677-710 | all filter blocks met from a block are emitted, and no other block is; the flattener stays consistent |
| PolicyCompiler.TreeVerdict | tools/compiler.py:291-304 | a tree that decides the ranges gives every syscall the action of its statement, or the default when it is not listed |
| PolicyCompiler.CompileFile | tools/compiler.py:265-311 | for either strategy, allowlist or denylist, and every architecture, number and arguments, on data with seven arguments or with as many as the filters ask for, the program implements the policy; what that means is said case by case by the next five members |
| PolicyCompiler.AnswersForeign | tools/compiler.py:289-290 | on a foreign architecture an implementing program returns the kill action |
| PolicyCompiler.AnswersUnlisted | tools/compiler.py:291-296 | a syscall without a statement is allowed by a denylist and gets the default action of an allowlist |
| PolicyCompiler.AnswersListed | tools/compiler.py:327-355 | a syscall with a statement is allowed outright by an allowlist whose statement ends in allow; otherwise it gets the action of the first filter whose expression holds, or the last action, in both modes |
| PolicyCompiler.CompiledIsBounded | tools/compiler.py:297-311 | every jump is forward, inside the program and fits 8 bits, every load is inside the 72 bytes of data, no scratch memory is used, and the last instruction returns |
| PolicyCompiler.PolicyOkIs | tools/compiler.py:265-287 | what is asked of a policy: arguments below 7, 32-bit constants on a 32-bit architecture, one statement per syscall |
| PolicyCompiler.SimulationVerdict | tools/bpf.py:87-133 | simulating a compiled program never raises, takes at most as many steps as it has instructions, and reports the policy's decision |
| PolicyCompiler.StrategiesAgree | tools/compiler.py:297-304 | the linear and the tree strategy agree on every syscall |
| Labels.BpfLabels.LabelId | bpf.c:352-383 | a known label keeps its id, a new one is appended, and failure means that more labels were asked for than the table holds |
| Labels.ResolveIff | bpf.c:301-349 | resolution succeeds exactly when no label is placed twice and every jump's label lies strictly later |
| Labels.ResolveRuns | bpf.c:301-349 | the resolved program runs exactly like the program with symbolic labels |
| Labels.ResolveJumps | bpf.c:301-349 | the backward pass returns 0 exactly when the length is within the limit and resolution succeeds, patches the program to the resolved one in place and leaves everything behind it alone |
| Compare.ArgCompLenExact | bpf.c:207-226 | the buffer length computed in advance is the length of the emitted code |
| Compare.ArgComp | bpf.c:228-299 | the block that is built holds exactly the code of load, comparison and jump |
| Compare.CompTests | bpf.c:76-205 | each of the eight 64-bit comparisons, in terms of comparisons of the halves |
| Compare.CompRuns | bpf.c:76-205 | with the halves in the scratch memory, the jump offsets of each comparison skip the following jump when it holds and lead to it otherwise |
| Compare.ArgCompRuns | bpf.c:228-299 | the block falls past its final jump exactly when the comparison holds, for all operators, constants and arguments, through the scratch memory |
| BlockList.FilterBlock.Append | syscall_filter.c:79-104 | appending keeps the head's tail pointer and total length true of the reachable blocks |
| BlockList.FilterBlock.Extend | syscall_filter.c:106-117 | joining a list of at least two blocks keeps both true |
| BlockList.FlattenBlockList | syscall_filter.c:883-899 | the list is copied behind what is there, nothing else is touched, and failure means it does not fit |
| SyscallFilter.BodyRuns | syscall_filter.c:362-519 | the block of a line returns what the line says, whatever follows it |
| SyscallFilter.RowsRun | syscall_filter.c:704-742 | the jump table sends a syscall to the first line that names it, or to the default |
| SyscallFilter.FilterRuns | syscall_filter.c:759-881 | the program with symbolic labels kills on a foreign architecture and else gives what the first line says, or the default |
| Encoding.EncodedRuns | syscall_filter.c:208-228 | label names may be replaced by the ids of a table without repeats |
| Encoding.EncodedResolvable | bpf.c:301-349 | resolvability by ids is resolvability by names |
| LabelUse.ResolvableWhenDistinct | syscall_filter.c:704-742 | the labels of a filter can be resolved if and only if no two filter lines have one name and no two conditional lines one number |
| LabelUse.LabelsCounted | syscall_filter.c:208-228 | lines with distinct filters need as many labels as their counts add up to: one for a return, two and one per conjunction for a condition |
| LabelUse.FilterLengthIs | syscall_filter.c:840-846 | the length of the filter follows from the lines |
| PolicyLine.CompileAtom | syscall_filter.c:235-318 | an atom appends its comparison with a jump to the end of its group, or too many labels were asked for |
| PolicyLine.CompileGroups | syscall_filter.c:444-476 | groups are numbered, end in their own label and jump to the common success label |
| PolicyLine.CompilePolicyLine | syscall_filter.c:362-519 | a compiled line has at least two blocks that encode the line behind its entry label; failure means a return clause the action does not allow, or too many labels |
| PolicyItems.IncludeIsInlining | syscall_filter.c:521-569 | a file with one-level includes is accepted and read exactly like the file with the included lines in their place |
| PolicyItems.WantedIs | syscall_filter.c:669-742 | a file is read item by item: a line that names an existing syscall gives its name, number and body, any other item gives nothing |
| PolicyItems.InlinedIs | syscall_filter.c:607-647 | inlining goes item by item and puts the lines of an included file in the place of the include |
| PolicyItems.StopsIff | syscall_filter.c:669-742 | reading gives up exactly at a malformed item, an unknown syscall outside a logging run, an errno of -1, or a bare return under the log action |
| PolicyItems.FlatReadingIs | syscall_filter.c:571-757 | a file that is read has given the lines of its existing syscalls in order, has seen their names, and has met a duplicate exactly when a name came twice and that is not allowed |
| PolicyItems.ReadingIs | syscall_filter.c:521-757 | a file with includes is accepted exactly when no include is nested, no item with the included ones in place is one to give up at, and no name comes twice unless allowed; its lines are then those of the existing syscalls in order |
| PolicyFile.FilterCompiler.CompileLine | syscall_filter.c:669-742 | a line adds its row and its block, reports a duplicate, and fails only on a refused return clause or too many labels |
| PolicyItems.AcceptedIsDistinct | syscall_filter.c:179-195 | a file accepted while duplicates are forbidden has distinct filters unless two of its names stand for one number |
| PolicyFile.FilterCompiler.CompileFile | syscall_filter.c:571-757 | returns 0 only when the file is read without error and without a forbidden duplicate, and always then unless its lines need more labels than the table holds; the blocks then hold the rows and filters of its lines |
| PolicyFile.FlattenAll | syscall_filter.c:841-864 | the two lists fill the final buffer exactly, or it would be too long |
| PolicyFile.Finish | syscall_filter.c:808-881 | returns 0 exactly when the filter is short enough, its filters are distinct and its labels fit; the program then decides as the lines say |
| PolicyFile.CompileFilter | syscall_filter.c:759-881 | returns 0 if and only if no include is nested, nothing in the file is to give up at, no name comes twice unless allowed, logging is allowed if it is the action, and the lines of existing syscalls fit 4096 instructions and 512 labels and have distinct filters; the program then decides every syscall as these lines say |
| PolicyFile.FilterKillsForeign | syscall_filter.c:782-785 | such a program kills the thread on a foreign architecture |
| PolicyFile.FilterWithoutLine | syscall_filter.c:792-839 | it allows the syscalls that logging needs and gives one that no line names the value of the default action, in figures |
| PolicyFile.FilterFollowsLine | syscall_filter.c:320-360 | it gives any other syscall what the first line that names it says: allow, an errno cut to 16 bits, or the default value; a conditional line allows when its condition holds |
| Agreement.CompilersAgree | syscall_filter.c:759-881 | on the kernel's data with its six arguments the programs of the two compilers give the same verdict on every syscall, with the same kill action and distinct syscalls |
| FdRedirect.Child.EnsureNoFdConflict | libminijail.c:3151-3187 | a descriptor about to be replaced is duplicated to its own target if closed, else to the highest unused one; failure exactly when none is left |
| FdRedirect.Child.GetChildFds | libminijail.c:3196-3214 | collects the child fds, refuses duplicates, and moves every source that an earlier redirection would overwrite |
| FdRedirect.Child.AvoidPipeConflicts | libminijail.c:3232-3252 | pipe ends that a child fd would replace are moved and still name their files |
| FdRedirect.DuplicatedIs | libminijail.c:3262-3290 | the sequence of duplications, where no source was replaced earlier, is the simultaneous one |
| FdRedirect.Child.RedirectFds | libminijail.c:3260-3301 | duplicates every source onto its child fd, then closes the sources that are not child fds |
| FdRedirect.AllRedirected | libminijail.c:3260-3301 | after the three phases every child fd names what its parent fd named originally |
| FdRedirect.FullTableOverlaps | libminijail.c:3147-3148 | a swap of two descriptors in a full table: preserved descriptors are few, and none is unused |
| FdRedirect.Child.SetUp | libminijail.c:3898-3913 | for any cycles and overlaps: child fds name the files their parent fds named, other parent fds are closed, pipe ends and the ELF descriptor still name their files, and nothing else changed; succeeds on distinct child fds when the table has room, fails when all descriptors are open and two redirections overlap |
| Jail.MountIsSettled | libminijail.c:1139-1209 | a mount is refused exactly when its destination is not absolute, and what is recorded is left alone by the defaults |
| Jail.Minijail.MountWithData | libminijail.c:1139-1209 | records the mount as the next member says, or refuses it and changes nothing |
| Jail.MountRecords | libminijail.c:1139-1209 | a request with an absolute destination is recorded last with its source, destination and type, flags 2 + 4 + 8 if it has none, "mode=0755,size=10M" if it is a tmpfs without options; a mount namespace is asked for unless one is entered, and nothing else changes |
| Jail.CoherentMountsAreSafe | libminijail.c:1163-1192 | no coherent jail holds a mount without flags, with a relative destination, or a tmpfs without options |
| Jail.Minijail.AddFsRestrictionPath | libminijail.c:353-417 | appends a rule; the first one probes the Landlock version and opens a ruleset |
| Jail.FsRuleRecords | libminijail.c:353-417 | a rule comes last and is counted; the first one stores the new descriptor, and the kernel's version if none was known; nothing else changes |
| Jail.FreshHolds | libminijail.c:477-490 | what a fresh jail holds, in figures |
| Api.ApplyKeepsCoherent | libminijail.c:484-1560 | every API call, copying included, keeps the counters equal to the lengths of their lists, mounts settled and in a mount namespace, the filter as long as announced if there is one, and the Landlock version probed |
| Api.RecordsIdentity | libminijail.c:492-561 | a user or group is stored with its flag, root aborts, nothing else changes |
| Api.RecordsGroups | libminijail.c:508-536 | groups are stored with their number and flag, and abort when groups are inherited or kept |
| Api.RecordsCaps | libminijail.c:715-732 | keeping capabilities stores them and withdraws a bounding set that was to be dropped |
| Api.RecordsBoundingSet | libminijail.c:734-749 | a bounding set is stored with its flag and aborts after capabilities were kept |
| Api.RecordsRoot | libminijail.c:921-941 | the first root is stored with the flag of its own kind, a second request of either kind changes nothing |
| Api.RecordsNamespaces | libminijail.c:771-853 | an entered mount or network namespace stores its descriptor with its flag |
| Api.RecordsPids | libminijail.c:803-837 | a process namespace raises three flags, four with a read-only /proc; a host name is taken once |
| Api.RecordsFilters | libminijail.c:1393-1425 | a program is stored with its length and raises no flag |
| Api.RecordsNoFilter | libminijail.c:1321-1334 | clearing lowers exactly five flags and forgets the program and its path |
| Api.RecordsFlag | libminijail.c:578-630 | a flag is raised alone; three seccomp options abort once a program is set |
| Api.RecordsCgroup | libminijail.c:1010-1020 | at most ten control groups, in order |
| Api.RecordsRlimit | libminijail.c:1022-1039 | at most 32 limits of different kinds, in order |
| Api.RecordsPreservedFd | libminijail.c:1299-1309 | at most 128 pairs of descriptors that are not negative, in order |
| Api.RecordsRemount | libminijail.c:1248-1273 | a remount of an absolute path is stored last, any other changes nothing |
| Api.RecordsMode | libminijail.c:793-801 | the propagation mode and a hook are stored, nothing else changes |
| Api.RecordsTmp | libminijail.c:995-1008 | the size of /tmp and the pid file are stored with their flags |
| Api.RecordsPreload | libminijail.c:1311-1319 | the path of the preloaded library is taken once |
| Api.RecordsMaps | libminijail.c:881-905 | an id map is stored with its commas as line ends |
| Api.RecordsLoweredFlag | libminijail.c:643-664 | the flags that can be lowered by themselves |
| Api.CopyIs | libminijail.c:3035-3050 | a coherent jail that holds the filter it announces is copied up to what is not sent, or not at all when it is not restorable |
| Api.BuiltIsCoherent | libminijail.c:477-491 | so does every run of API calls from a fresh jail |
| Marshal.MarshalState.Append | libminijail.c:1575-1589 | appends to what was written as far as there is room, counts everything, and leaves the rest of the buffer alone |
| Marshal.MarshalState.AppendJail | libminijail.c:1590-1652 | appends exactly the serialisation of the jail |
| Marshal.Size | libminijail.c:1654-1660 | measures the serialisation by writing into no room |
| Marshal.MarshalInto | libminijail.c:1662-1668 | writes exactly the first min(n, size) bytes of the serialisation, nothing else, and returns 0 if and only if n is at least the size |
| Unmarshal.Cursor.ConsumeStr | util.c:483-490 | takes the bytes up to the first NUL, or nothing when there is none |
| Unmarshal.TakesMounts | libminijail.c:1775-1806 | requesting settled mounts again records them as they were |
| Unmarshal.TakesRules | libminijail.c:1820-1837 | rules come back in order, unless one grants nothing |
| Layouts.FaithfulExists | libminijail.c:1622 | there is a memory layout of the structure that copies faithfully |
| Unmarshal.RebuiltIsCoherent | libminijail.c:1670-1854 | whatever the bytes, a jail that is rebuilt is coherent |
| Unmarshal.RoundTrip | libminijail.c:1670-1854 | a coherent jail comes back with no byte left over if and only if it is restorable and holds the filter it announces; flags, values, strings, groups, mounts, control groups and rules are the same and in order, the filter exactly when its flag is set and it is not empty |
| Api.BuiltRoundTrip | libminijail.c:1670-1854 | the same for every jail built by API calls |
| Api.CopySendsTheSame | libminijail.c:3035-3050 | a copy is serialised like its original |
| Api.CopyIsIdenticalIff | libminijail.c:3035-3050 | a copy is the original exactly when that has no local path or map, no remount, no hook, and no filter or one in use |
| Api.CopyTears | libminijail.c:1691-1693 | raising the filter flag on a copy makes it announce a filter it does not hold exactly when the original had one that was not in use |
| Api.TearingIsRefused | libminijail.c:3035-3050 | setting a filter, copying and asking for the filter builds a restorable jail that is refused |
| Api.TornReadsMount | libminijail.c:1752-1773 | such a jail with a long first mount source comes back without error as another jail, whose filter is the beginning of the source |
| Unmarshal.UnmarshalInto | libminijail.c:1670-1854 | rebuilds the jail in place as specified from any bytes; on refusal no pointer of the sender is left; it is lost exactly where the code writes past the control groups or copies from a null pointer |
| Unmarshal.PipeRoundTrip | libminijail.c:2993-3033 | a jail passes through the pipe as it was if and only if it is restorable, holds the filter it announces and takes at most 65535 bytes |
| Unmarshal.PipeCarries | libminijail.c:2993-3033 | the same in figures: what arrives is the jail without local paths, maps, remounts, hooks and an unused filter, exactly when it has at most 65536 groups, only rules that grant something, a descriptor other than 0, an announced filter, and fits 65535 bytes |
| Acceptance.TookStr | util.c:483-490 | a string is consumed up to its first zero byte, and not at all when there is none |
| Acceptance.AcceptedIsSpelled | libminijail.c:1670-1854 | whatever bytes arrive, a jail is rebuilt only from a structure followed by the texts of that jail, in order and in the announced numbers, with absolute destinations, granting rules, at most 65536 groups, 65535 instructions and ten control groups, and a descriptor other than 0 |
| Enter.Preexec | libminijail.c:435-473 | keeps exactly the flags that outlive execve and drops user, groups, mounts and rules |
| Enter.Preenter | libminijail.c:312-332 | drops exactly what the launching side has done |
| Enter.EnterJail | libminijail.c:2772-2963 | the effects of an entry, in order, or an early death on a refused configuration or filter; the following members say which |
| Effects.Occurrences | libminijail.c:2772-2963 | a process that survives has done each of the 37 kinds of effect, with whatever arguments, exactly as often as flags, fields and lists say: the user and group change once, with the jail's ids, if their flags are up, the filter that is installed is the jail's, each mount, rule, remount and hook as often as it is listed |
| Effects.SurvivesIff | libminijail.c:2782-2833 | it survives exactly without a process namespace, with a user for inherited groups, no remount stricter than the root, at most one wish about groups, and a filter where one is installed |
| Effects.SameEffects | libminijail.c:2772-2963 | two jails do the same up to order exactly when they ask for every effect equally often |
| Effects.MountsInSequence | libminijail.c:2077-2213 | mounts are made in list order without a gap |
| Effects.RulesInSequence | libminijail.c:2598-2623 | rules are added in list order and the restriction follows at once |
| Effects.RemountsInSequence | libminijail.c:2801-2833 | the namespace is unshared, the root remounted, then each path in order |
| Effects.RootHooksInSequence | libminijail.c:2215-2233 | the hooks of that event run right before either change of root |
| Effects.CapHooksInSequence | libminijail.c:2881-2889 | the hooks of the other event run right before the bounding set is dropped |
| Effects.ExecKeeps | libminijail.c:435-473 | eleven flags are kept, by name, five fields emptied, nothing else changes |
| Effects.EnterKeeps | libminijail.c:312-332 | sixteen flags are lowered, by name, the remounts forgotten, nothing else changes |
| Effects.ChildKeeps | libminijail.c:3923-3925 | only the /proc flag is lowered, in a process namespace whose init is the program |
| Effects.LaunchKeeps | libminijail.c:3741-3744 | a run with rules takes the new descriptor, keeps it preserved and learns an unknown version |
| Enter.EnteredInOrder | libminijail.c:2866-2962 | mounts come before the change of root, /proc is remounted inside it, securebits are set before the user changes, the filter is installed after privileges are dropped exactly when new ones are forbidden, that ban precedes Landlock, and strict seccomp comes last |
| Enter.TracesSplit | libminijail.c:2772-2963 | the effects of the two entries are the two phases of the effects of one |
| Enter.NetworkTwice | libminijail.c:2848-2856 | with both network flags the launching side makes a namespace the single entry would not make |
| Enter.ProcOutside | libminijail.c:2878-2879 | when the jail changes its root the launching side remounts the /proc of the outer root, a single entry the one inside |
| Enter.ChrootedProcIsOutside | libminijail.c:435-473 | the three traces of a jail with a changed root and a read-only /proc |
| Enter.SplitEnter | libminijail.c:3923-3944 | for a hook-free jail both halves get through exactly when the single entry does; the effects are then those of the single entry, each once, in the same root and in order within each half, if and only if the jail splits cleanly |
| Enter.SplitOrder | libminijail.c:2772-2963 | the halves one after the other are the single entry itself if and only if the jail splits cleanly and keeps the order, and a cleanly split jail has its effects in their due order exactly then |
| Enter.LaunchedIs | libminijail.c:3741-3744 | a jail with rules opens its ruleset anew for the run; it stays coherent, and is restorable exactly when its groups and rules are and the descriptor that counts is not 0 |
| Enter.PreloadedRun | libminijailpreload.c:74-87 | from API calls through launch and pipe to the two entries: the jail is received as launched if and only if it is receivable, holds the filter it announces and fits 65535 bytes, and then the halves together do what one entry does exactly when it splits cleanly |
| Constant.CloseSkipsExpr | util.c:249-264 | printed expressions are balanced, so the parenthesis scanner passes over them |
| Constant.PrintParses | util.c:271-349 | printing any expression over bars, complements and parentheses and parsing it back yields its 64-bit value |
| Constant.SeriesBuilds | util.c:298-345 | every text the loop accepts is the text of a well-formed expression with the value returned |
| Constant.ParseIff | util.c:271-349 | the parser accepts exactly the texts of well-formed expressions, with their value |
| Constant.ParsesConstant | util.c:298-345 | a known constant gives its value, with a tilde the bitwise complement |
| Constant.ParsesSeries | util.c:336-344 | a constant and a bar in front of an accepted text give the bitwise or, complemented where there is a tilde |
| Constant.ParsesGroup | util.c:304-335 | an accepted text in parentheses gives its value, with a tilde the bitwise complement |
| Constant.ParsesGroupSeries | util.c:304-344 | a parenthesis in front of an accepted text gives the bitwise or |
| Constant.ParsesComplementSeries | util.c:342-344 | with a tilde the parenthesis is complemented before it is joined |
| Constant.ValueBits | util.c:342-344 | for every expression a bit of the value is set if and only if some term sets it, complements setting the bits their operand leaves |
| Constant.ParsesNothing | util.c:298-345 | the empty text, a lone tilde and a lone bar are refused; a stray bar after a constant is not |
| Constant.RefusesUnknown | util.c:336-341 | an unknown constant is refused |
| Constant.RefusesTrailing | util.c:314-333 | a parenthesis followed by anything but a bar and more is refused |
| Constant.RefusesUnclosed | util.c:236-269 | an unclosed parenthesis is refused |
| Constant.Tokenize | util.c:413-447 | cuts the string at the first bar by writing a NUL, or returns the null pointer |
| Constant.TokenizeParenthesized | util.c:236-269 | cuts out the group up to the matching parenthesis, or fails and changes nothing |
| Constant.ParseConstant | util.c:271-349 | terminates; the end pointer equals the start exactly on failure, with value 0; otherwise the value is the expression's; only bytes of the text are overwritten |

## Left out

- `tools/parser.py`, file reading, name tables and frequency files: statements, lines and lookups are inputs.
- `ValidateArch` is a method on the root of the flattened DAG, not a block that may be shared, as only the root is one.
- `CopyingVisitor` for blocks other than actions and atoms: not reached by lowering.
- Python's object identity: blocks are indices into an arena, children before parents; two blocks are the same block when they have the same index.
- BstCost.OptIsLowerBound: trees that test a range ahead of a search are not in the class; `TestThenTreeIsCheaper` shows they can be cheaper.
- FilterStatement.CompileFilterStatement: on 32-bit machines constants of ordered comparisons are taken to be below 2^32, as the parser makes them, and arguments too.
- The BITS32 build of `bpf.c` and big-endian layout.
- Argument indices above 5 in the C compiler: the emitted load is then outside the kernel's data and nothing is promised.
- PolicyFile.CompileFilter: when the label table is full compilation fails here; in the source a full table aborts the process inside an argument filter, and for the entry label of a line the unchecked -1 (`syscall_filter.c:716`) becomes a label id far outside the table, which `bpf.c:336` then reads.  Instruction buffers inside blocks are values.
- Text of errno names and of return clauses: already resolved in the lines.
- Failing `dup2`, `close` and `fcntl`, close-on-exec flags, and descriptors opened by logging in the fd model.
- FdRedirect.Child.SetUp: source descriptors are open and all descriptors below `FD_SETSIZE`, as the fd_set macros demand.
- Marshal.MarshalState.AppendJail: the memory layout of `struct minijail` is a parameter that copies faithfully; padding and bit-field order are not modelled (`Layouts.FaithfulExists` exhibits one layout).
- Unmarshal.UnmarshalInto: what memory is released on failure, and what happens once the C code has left defined behaviour.
- Api.ApplyKeepsCoherent: calls that only raise one flag are represented by one constructor; lookups of users and groups, and descriptors opened by a call, are inputs; a jail whose copying failed is not used further.
- Api.RecordsFlag: the aborts of the tsync and logging calls that depend on whether the kernel has SECCOMP_RET_LOG are not modelled; a kernel on which seccomp soft-fails is the call `ClearSeccomp`.
- Acceptance.AcceptedIsSpelled: says what an accepted buffer must be; that every buffer written from a jail is accepted, and when, is `RoundTrip`.
- Enter.EnterJail: system calls succeed, except that the kernel refuses a missing or empty filter; each is one abstract effect carrying its parameters, so the individual mounts of /dev, the capability loops and the Landlock rule encoding are not opened up.
- Enter.EnteredInOrder: stated for jails without hooks, which may run at two points.
- Enter.SplitEnter: hooks are absent, because the launcher refuses them together with preloading.
- The parent side of the run (uid maps, pid file, cgroups, rlimits, signal forwarding) and `init`.
- Looking up a single constant (`parse_single_constant`): a parameter whose accepted texts are not empty and hold no operator character.
- `minijail0_cli.c`, `elfparse.c`, `config_parser.c`, `landlock_util.c`, `system.c`: option plumbing or system calls.
