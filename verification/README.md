# Verified models of the command library

The repository carries a copy of the GNU Zebra library in public/cmd: GNU regex, getopt and MD5, a routing table, an event
scheduler, terminals with a line editor, paged output, a priority queue and route-maps. This project models those parts in
Dafny and proves what they are for. `dafny verify dfyconfig.toml` checks everything.

- **Regular expressions** (Regex*.dfy). RegexTree gives patterns their language. RegexCode says which bytes a tree is
  compiled to. RegexCompiler, on RegexBuffer, is the one-pass compiler that opens gaps in code it has already emitted;
  RegexLevels, RegexEmission, RegexGrammar and RegexProgress say where it stands while it reads. RegexMachine is the
  backtracking machine as a function, RegexPaths, RegexLayout and RegexSoundness prove it sound, and RegexMatcher is the
  imperative loop that overwrites its own opcodes and refines it. RegexAnswer says which end of a run is its answer.
  RegexGroups, RegexMarks, RegexForced and RegexTexts follow the registers' marks through every run and say when a loop
  over a group is left by force. RegexFirst, RegexItems and RegexFastmap are the map of first characters, RegexSearch the
  search that uses it. RegexCollapse and RegexLeading are the meaning of runs of repetition characters, behind an
  operand and without one. RegexParts takes a pattern whose `*` and `+` repeat one-character items or groups with no
  choice in them apart, RegexTurns is a machine on these parts, RegexRounds and RegexRepeats prove the rounds of the
  matching loop to be its turns, RegexReturns that it returns, and RegexLongest, RegexMeaning and RegexDecision the
  longest rule; RegexMisses is the converse. RegexDepartures, RegexNestedLoop and RegexForgotten run the patterns on
  which the code departs from its intent, and RegexPipeline puts compiler, map and search together.
- **Routing table** (PrefixBits, RouteTrie, RouteOrder, RouteTable.dfy): the path-compressed trie with parent pointers,
  stubs and reference counts, against a set of nodes keyed by bit strings.
- **Scheduler** (Lists, ThreadLists, Schedule, Scheduler.dfy): six intrusive lists and two descriptor sets, refining a
  schedule on values over which whole runs are reasoned about.
- **getopt** (Arguments, Getopt.dfy): the in-place permutation, against a parse of the list in its original order.
- **MD5** (Md5Rounds, Md5Blocks, Md5, Md5Vector.dfy): the incremental computation, against RFC 1321 on the whole message.
- **Terminals** (LineEditor, Vty, ConfigLock, PagedBuffer.dfy): the echoed bytes against a terminal, the configuration lock
  over all interleavings, and paged output that loses nothing.
- **Priority queue and route-maps** (PQueue, RouteClauses, RouteMap.dfy).

Where the code departs from its evident intent the model follows the code. Each item names the member with the input that
shows it and what is proved about when the code is right.

- A starred escaped dot before a newline is compiled like `.*` before a newline (RegexDepartures.EscapedDotMismatch). The
  other results on matching ask for PlainDotLines, which RegexCompiler.Compiler.Compile proves equivalent to having no such
  place in the pattern or setting RE_DOT_NEWLINE; in CompileAndSearch it is the caller's condition on the tokens.
- For loops over one-character items two kinds of decision to pop a failure point are wrong (CountedMiss, WideMiss), and
  DecisionRight says these are the only ones. The loop for `.*` before a newline makes no failure points at all, which is
  wrong where the newline may be left out (OptionalNewlineMiss). WellFollowed is the condition a caller can check: no
  misjudged loop, and the first item that must match behind a `.*` before a newline cannot start with a character that `.`
  takes. What may be left out in between does not matter. LongestRule and LongestExactly say that this is right.
- A loop over a group with a choice in it, at the end of a pattern, throws away a failure point of the choice instead of its
  own (NestedMiss). A loop over a numbered group throws a failure point away exactly when nothing but the marks of groups
  is behind it (GroupLoopDecides); the longest rule is proved for loops over one-character items and over groups with no
  choice in them.
- A register's mark says whether its group has taken text, and it decides whether a loop over the group goes on. Where
  the text was taken by `.*` before a newline the mark is lost again when that loop is left through its failure point,
  which keeps the place in the text and not the registers: `(.*\n?)*` on "a" is left by force after the "a"
  (DotsForgotten). So the mark speaks of the characters the matcher has noted, which are the text where the pattern
  has no such loop (MarkSaysTaken, TakenIsText).
- The table above route_map_apply_index sends a matched deny clause with a plain continue on to the next clause; the code
  denies at once (DenyStops). The comments speak of the first clause with a preference greater than nextpref in one place
  and of the n-th clause in another; the code takes the first that is not smaller, and rereads nextpref while it searches
  (TwoSkipped); JumpRight says when that is harmless. ReadsExactly says when code and table agree.
- The history stores the C string in the line's buffer. Nothing ends the line where the buffer was enlarged and not cleared
  since, so what is stored may be longer than what was typed (EnterLongLine). Press, PressAll and EnteredDiffers say exactly
  when it is the line.
- getopt strips the ordering mark from its option string on the first call only, so that afterwards it counts as an option
  character and hides a colon behind it (MarkHarms); MarkHarmless says exactly when that makes no difference.
- The carry of md5_process_block is found if and only if the low half plus the length is below 2^33 (Md5.CarryFound).
- ^Z moves the cursor but keeps the line (Vtys.Vty.EndConfig); the flush functions never correct the length field
  (PagedBuffers.Buffer.Flush).

Clocks, select, password checks, memory that may be missing, the functions behind route-map rules and the commands a
terminal runs are parameters.

## Model

| member | source | states |
|---|---|---|
| RegexCode.ExtractStore | public/cmd/regex.c:526-575 | reading back a stored two-byte offset gives it unchanged if and only if it lies in [-2^15, 2^15) |
| RegexCode.JumpTarget | public/cmd/regex.c:1644-1654 | a jump stored at k with an offset that stays inside code shorter than 2^15 leads exactly offset bytes past its own end |
| RegexBuffer.CodeBuffer.GetSpace | public/cmd/regex.c:1611-1614 | the buffer grows by doubling until n more bytes fit and fails exactly when they would pass MAX_BUF_SIZE; what was emitted is kept |
| RegexBuffer.CodeBuffer.StoreJump | public/cmd/regex.c:2990-2998 | three emitted bytes become the given jump, nothing else changes |
| RegexBuffer.CodeBuffer.InsertJump | public/cmd/regex.c:3018-3032 | the gap keeps everything before loc and moves everything from loc on up by three, with the jump in between |
| RegexBuffer.CodeBuffer.Wrap | public/cmd/regex.c:2093-2157 | the jumps put around an operand give the loop of the collapsed repetition, `.*\n` form included, in whatever order they are inserted |
| RegexBuffer.CodeBuffer.EndAlternative | public/cmd/regex.c:2562-2597 | a bar puts a jump before the branch and redirects the previous one, leaving all other jumps of the branch with their targets |
| RegexLevels.PieceAdds | public/cmd/regex.c:2881-2946 | adding a piece to the branch being read adds exactly its tokens, its groups and their numbers, and is a pattern exactly when the piece may stand there |
| RegexLevels.AddClose | public/cmd/regex.c:2496-2556 | a closing parenthesis makes the innermost level one group piece of the level around it, numbered as it was opened |
| RegexEmission.PieceSplit | public/cmd/regex.c:1992-2032 | laststart splits the code emitted so far exactly in front of the last piece |
| RegexCompiler.GapAndPatch | public/cmd/regex.c:2562-2590 | opening the gap for a jump before a branch and filling in the earlier jump do not disturb each other |
| RegexCompiler.CollapseMore | public/cmd/regex.c:2046-2073 | one more repetition character: zero stays allowed unless it and all before are +, many unless they are all ? |
| RegexProgress.KeepFacts | public/cmd/regex.c:2093-2115 | the test for the sequence `.*\n` succeeds if and only if RE_DOT_NEWLINE is off and a lone star stands between a `.`, operator or escaped, and a newline that is not escaped |
| RegexCollapse.CollapseMeans | public/cmd/regex.c:2033-2073 | what the compiler makes of a run of repetition characters has exactly the language they have applied one after the other |
| RegexLeading.LeadingRepeat | public/cmd/regex.c:2035-2042 | every parse of a pattern that starts with a repetition character has the language of one without it under RE_CONTEXT_INDEP_OPS, and otherwise of one with the character as a literal; under RE_CONTEXT_INVALID_OPS there is none |
| RegexCompiler.Compiler.Compile | public/cmd/regex.c:1879-2966 | success gives the code of a parse of the pattern, with its groups counted; every error is reported only where the pattern has it; the keep-string loop is put only around the operator `.`, or RE_DOT_NEWLINE is set, if and only if no escaped dot is starred before a newline |
| RegexCompiler.Compiler.Repeat | public/cmd/regex.c:2033-2158 | a run of repetition characters turns the last piece into the repetition it stands for, or is an error or nothing when there is no piece |
| RegexCompiler.Compiler.Collapse | public/cmd/regex.c:2046-2073 | the loop over a run of repetition characters finds where it ends and whether zero and many repetitions are allowed |
| RegexCompiler.Compiler.PopGroup | public/cmd/regex.c:2518-2556 | closing a group restores the enclosing alternative, jump fix-up and last piece and stores the number of inner groups |
| RegexCompiler.RepeatDone | public/cmd/regex.c:2033-2158 | the code after the loop jumps are inserted is that of the tree with the last piece repeated |
| RegexLayout.Opcode | public/cmd/regex.c:526-549 | at every opcode boundary of finished code there is an opcode with operands in range, ending inside the code, and none starts within it |
| RegexLayout.NextBoundary | public/cmd/regex.c:3018-3051 | every jump lands on an opcode boundary within the code, and the loops it enters are bounded by the failure points it pushes |
| RegexLayout.DepthEnds | public/cmd/regex.c:2947-2966 | both ends of the code are boundaries outside all loops |
| RegexPaths.InsideStart | public/cmd/regex.c:4092-4106 | control can enter the code of every tree with nothing matched |
| RegexPaths.MoveInside | public/cmd/regex.c:4260-4990 | every move the code allows, with the text it takes, keeps control where the language says it can be |
| RegexPaths.InsideEnd | public/cmd/regex.c:4106-4166 | control at the end of a tree's code has matched a member of its language |
| RegexMachine.HighestActive | public/cmd/regex.c:4434-4450 | the search for the highest active register below one finds it, or 0 |
| RegexSoundness.InitialInv | public/cmd/regex.c:4040-4092 | the matching loop starts in its invariant |
| RegexSoundness.MatchSound | public/cmd/regex.c:4092-5233 | for every pattern in the fragment, text, start and number of rounds: the matcher fails no check of its own, never takes a failure point from an empty stack and never leaves the code, and a returned length is that of a member of the pattern's language |
| RegexMatcher.SamePops | public/cmd/regex.c:4746-4896 | the decision for a maybe_pop_jump is the same whichever other jumps have been overwritten already |
| RegexMatcher.RoundSame | public/cmd/regex.c:4746-4944 | one round on the overwritten code, after the opcode's own decision, is one round on the original code |
| RegexMatcher.ReMatch | public/cmd/regex.c:4092-5233 | the loop that overwrites its own opcodes returns what the machine on the original code returns, for any earlier overwriting, and writes only decisions |
| RegexAnswer.AnswerIsEnd | public/cmd/regex.c:4106-4166 | for every pattern: -1 is returned if and only if the run never came to the end of the pattern; otherwise the answer is the longest of the ends it came to, or, under RE_NO_POSIX_BACKTRACKING, the first |
| RegexGroups.NextZone | public/cmd/regex.c:4353-4560 | every move keeps control inside the same numbered groups, but for the opcodes that open and close one; a fork into a group says which one it enters |
| RegexForced.MarkSaysTaken | public/cmd/regex.c:1527-1545 | in every run, through all backtracking, at the end of every numbered group: its register is marked as matched if and only if the matcher has noted a character since the start of that round of the group |
| RegexForced.LoopLeftByForce | public/cmd/regex.c:4462-4540 | in every run, at the end of a round of a loop over a numbered group: the loop goes on if the round has taken something, and is left by way of a failure if it has taken nothing |
| RegexTexts.TakenIsText | public/cmd/regex.c:4260-4380 | where there is no `.*` before a newline the characters noted are exactly the text between the start and where the matcher stands |
| RegexForgotten.DotsForgotten | public/cmd/regex.c:4468-4471 | the pattern (.*\n?)* on "a": the group has taken the "a", its mark is not set, and the loop around it is left by force |
| RegexFirst.FirstOfProgram | public/cmd/regex.c:3242-3470 | a map closed under everything reachable without text has the first character of every member, and the empty string is no member |
| RegexFastmap.JumpStep | public/cmd/regex.c:3364-3392 | following a jump makes progress, so the scan ends although loops are followed |
| RegexFastmap.CompileFastmap | public/cmd/regex.c:3186-3474 | can_be_null is set if and only if the empty string is in the language; otherwise every member starts with a character in the map; and only characters that a first item of the pattern takes are in it |
| RegexItems.ItemBegins | public/cmd/regex.c:3242-3361 | what an item of the code puts in the map, where control can come to it without text, a first item of the pattern tree takes, with only empty members in front of it |
| RegexFastmap.AddSet | public/cmd/regex.c:3269-3299 | the loops over a bitmap add exactly the characters the bracket expression accepts |
| RegexSearch.RuledOut | public/cmd/regex.c:3617-3660 | where the map rules a start out the matcher could not have matched |
| RegexSearch.Search | public/cmd/regex.c:3558-3694 | with or without a fastmap, forward or backward: the start found is the first, in the order tried, at which the matcher matches, and NotFound means none of them does |
| RegexSearch.StartsTried | public/cmd/regex.c:3572-3584 | the starts to be tried are exactly those of the text within range steps of startpos, forward or backward |
| RegexSearch.SkipForward | public/cmd/regex.c:3629-3648 | the characters passed over without calling the matcher could start no match |
| RegexPipeline.PatternOfParse | public/cmd/regex.c:1879-2966 | what the compiler guarantees, groups numbered as they open included, is what the matcher, fastmap and search ask for |
| RegexPipeline.CompileAndSearch | public/cmd/regex.c:3558-3694 | compile, map and search together: where something is found, the text there starts with a member of the pattern's language; given room and rounds, for patterns for which the longest rule is kept, no start tried before it has one, and where nothing is found none has |
| RegexPipeline.NoMember | public/cmd/regex.c:3617-3660 | where the matcher matches nothing the text has no member of the language at its front, for patterns for which the longest rule is kept |
| RegexParts.ProgramLaidOut | public/cmd/regex.c:2033-2597 | the code of a pattern whose * and + repeat one-character items or groups with no choice in them is its parts one after the other: items, marks, loops, and forks and jumps to the part they lead to |
| RegexMeaning.PartsMean | public/cmd/regex.c:4106-4166 | a way through the parts takes a piece of text if and only if that piece is in the pattern's language |
| RegexRounds.RoundTurns | public/cmd/regex.c:4092-5233 | each round of the matching loop on such a pattern's code, outside the groups that are repeated, is one turn of the machine that knows neither addresses nor registers, failing back through group ends included |
| RegexRepeats.BodyRounds | public/cmd/regex.c:4353-4560 | all rounds that the matching loop spends in a group that is repeated, nested groups included, are together one turn: the text is taken and the loop goes on, or a group that took nothing is left by force, or the loop fails |
| RegexReturns.MatchReturns | public/cmd/regex.c:4092-5233 | where * and + repeat one-character items or groups with no choice in them the matcher returns within a bound on every text, and with that much room it does not run out of failure points |
| RegexLongest.StillReached | public/cmd/regex.c:4746-4790 | where nothing that must match behind a loop can start with what a round of it takes first, whatever can be completed before the round can be completed, no shorter, after it |
| RegexLongest.TurnsFine | public/cmd/regex.c:4106-4166 | so no run of turns loses the longest match from its failure points, its best match so far and where it stands |
| RegexDecision.DecisionRight | public/cmd/regex.c:4746-4896 | the decision at the end of a loop, in any pattern of such loops, throws away only what cannot matter if and only if the loop is not one of the two misjudged kinds |
| RegexDecision.GroupDecision | public/cmd/regex.c:4746-4788 | at the end of a loop over a group with no choice in it the latest failure point is thrown away if and only if nothing but marks of groups is behind the loop |
| RegexDecision.LongestRule | public/cmd/regex.c:4106-4896 | the longest rule for every pattern whose * and + repeat one-character items or groups with no choice in them, with groups, alternatives and ? of anything elsewhere, and whose loops a caller can check to be well followed: the matcher returns within a bound, a returned length is that of the longest match, and -1 means there is none |
| RegexDecision.WellFollowedSensible | public/cmd/regex.c:4746-4896 | that check holds if and only if no failure point the code throws away, or never makes, can matter to what must follow |
| RegexMisses.SomeMissed | public/cmd/regex.c:4746-4896 | where it does not hold, in a pattern without alternatives and repeated groups, the matcher returns -1 on a text that is a member as a whole, given all the room and rounds it asks for |
| RegexMisses.LongestExactly | public/cmd/regex.c:4106-4896 | so for such patterns the longest rule is kept on every text if and only if the loops are well followed or nothing at all can match |
| RegexNestedLoop.GroupLoopDecides | public/cmd/regex.c:4746-4896 | at the end of a loop over a numbered group the latest failure point, whatever it is, is thrown away if and only if nothing but group marks is behind the loop; otherwise all are kept |
| RegexNestedLoop.NestedMiss | public/cmd/regex.c:4779-4788 | the pattern (a*(ab)?)* on "ab" returns 1, though 2 is in its language: at the end of the pattern the outer loop throws away a failure point of the choice inside it |
| RegexDepartures.EscapedDotMismatch | public/cmd/regex.c:2093-2115 | the pattern `\.*\n` is compiled like `.*\n` and reports a match on "x\n", which is not in its language |
| RegexDepartures.CountedMiss | public/cmd/regex.c:4842-4845 | the pattern a*[ab] on "a" returns -1 because the count byte is tested instead of the character |
| RegexDepartures.WideMiss | public/cmd/regex.c:4814-4820 | the pattern [a\377]*a on "a" returns -1 because a 32-byte bitmap's width is cut to 0 |
| RegexDepartures.OptionalNewlineMiss | public/cmd/regex.c:2093-2115 | the pattern `.*\n*b` on "b" returns -1 although the newline may be left out |
| PrefixBits.MaskedCompare | public/cmd/prefix.c:86-88 | a masked difference is zero if and only if the leading bits agree |
| PrefixBits.PrefixMatch | public/cmd/prefix.c:67-93 | prefix_match answers 1 if and only if the first prefix's bits are a prefix of the second's |
| PrefixBits.CheckBit | public/cmd/table.c:172-188 | the shift and mask read the bit at that position, most significant bit first |
| PrefixBits.RouteCommon | public/cmd/table.c:133-169 | the result is the longest common prefix of the two addresses, and the bits behind it are zero |
| RouteTrie.TopCovers | public/cmd/table.c:316-367 | the top node's key is a prefix of every key |
| RouteTrie.Descend | public/cmd/table.c:240-263 | a node that extends another in bits is found below it by following its own bits |
| RouteTrie.OneNodePerKey | public/cmd/table.c:316-367 | no two nodes have the same key |
| RouteTables.RouteTable.LongestWithData | public/cmd/table.c:240-263 | the walk finds, among all nodes with data, the one with the longest key covering the query, or that there is none |
| RouteTables.RouteTable.Match | public/cmd/table.c:240-263 | route_node_match returns that node with one more lock and changes nothing else |
| RouteTables.RouteTable.Lookup | public/cmd/table.c:295-313 | route_node_lookup returns the node with exactly that key if it has data, locked, and null if and only if there is none |
| RouteTables.RouteTable.SetLink | public/cmd/table.c:191-203 | the new child hangs on the branch its next bit names; the other branch is kept |
| RouteTables.RouteTable.CommonFacts | public/cmd/table.c:336-350 | where a node is in the way, the common part ends properly inside it, below the node above, before the first differing bit |
| RouteTables.RouteTable.Get | public/cmd/table.c:315-367 | route_node_get keeps the trie's shape, returns the node for that key with one more lock, and adds it and at most one stub holding exactly the longest common prefix of it and an older node |
| RouteTables.RouteTable.Unlock | public/cmd/table.c:213-220 | releasing a lock keeps the trie compact: unlocked nodes keep data-less places with two children, and only unlocked nodes disappear |
| RouteTables.RouteTable.Delete | public/cmd/table.c:369-407 | the deletion cascade ends, keeps the shape, and removes the node and at most one stub above it, no held node |
| RouteTables.RouteTable.StubParent | public/cmd/table.c:400-407 | the parent of a stub that loses a child still keeps two apart, so the cascade stops there |
| RouteTables.RouteTable.StubsFewer | public/cmd/table.c:204-220 | in every state between calls stubs are fewer than held nodes |
| RouteOrder.NextIsChild | public/cmd/table.c:432-444 | a node with children is followed, in the order of bit strings, by its first child |
| RouteOrder.NextIsUncle | public/cmd/table.c:446-458 | climbing from a left child whose parent has a right one, that one is next |
| RouteOrder.ParentPassed | public/cmd/table.c:446-458 | otherwise nothing below the parent is still to come |
| RouteOrder.LessTotal | public/cmd/table.c:409-462 | the order of the walk, prefix before extension and 0 before 1, is total |
| RouteOrder.PrefixLess | public/cmd/table.c:432-444 | a prefix comes before its extensions |
| RouteOrder.BranchLess | public/cmd/table.c:436-458 | under one node everything on the 0 branch comes before everything on the 1 branch |
| RouteTables.RouteTable.Next | public/cmd/table.c:424-462 | route_next returns the next node in that order, locked, and unlocks the current one |
| RouteTables.RouteTable.Walk | public/cmd/table.c:409-462 | a walk visits every node exactly once in order, even when the caller drops nodes as it passes; if nothing is dropped, links and locks are as before |
| RouteTables.RouteTable.Free | public/cmd/table.c:79-125 | every node is freed exactly once |
| ThreadLists.CompareMicros | public/cmd/thread.c:71-76 | on normal times the comparison is that of the instants |
| ThreadLists.Adjust | public/cmd/thread.c:33-58 | the two loops normalise; a negative time becomes 10 microseconds and seconds are capped at a million |
| ThreadLists.AdjustedShortens | public/cmd/thread.c:33-58 | adjusting never lengthens a time, but for one that has passed, and is exact below the cap |
| ThreadLists.ThreadList.Add | public/cmd/thread.c:120-132 | the thread is last on the list, links in both directions and count included |
| ThreadLists.ThreadList.AddBefore | public/cmd/thread.c:134-148 | the thread is directly in front of the point |
| ThreadLists.ThreadList.Delete | public/cmd/thread.c:150-165 | the thread is off the list, the others keep their order, its own links are null |
| Scheduler.ThreadMaster.Conserved | public/cmd/thread.c:120-176 | in every state between calls each allocated thread is on exactly one list, that of its type, alloc is the sum of the six counts, and a descriptor's bit is set if and only if exactly one thread waits for it |
| Scheduler.ThreadMaster.Get | public/cmd/thread.c:260-280 | the oldest used thread if there is one, else a fresh one |
| Scheduler.ThreadMaster.AddRead | public/cmd/thread.c:282-303 | a second thread for a descriptor is refused; otherwise it is last and its bit is set |
| Scheduler.ThreadMaster.AddWrite | public/cmd/thread.c:305-326 | the same for writing |
| Scheduler.ThreadMaster.AddTimer | public/cmd/thread.c:328-363 | the timer goes in front of the first one that is not earlier, and the list stays sorted |
| Scheduler.ThreadMaster.AddEvent | public/cmd/thread.c:365-379 | the event is last on its list |
| Scheduler.ThreadMaster.Cancel | public/cmd/thread.c:381-411 | a waiting or ready thread moves to the pool, only its own bit is cleared, all other lists are as before |
| Scheduler.ThreadMaster.CancelEvent | public/cmd/thread.c:413-434 | exactly the events with that argument go, and the rest keep their order |
| Scheduler.ThreadMaster.ProcessFd | public/cmd/thread.c:510-533 | exactly the threads whose descriptors are set become ready, in order, and exactly those bits are cleared |
| Scheduler.ThreadMaster.TimerWait | public/cmd/thread.c:477-497 | select waits for at most the time to any deadline, or 10 microseconds when one has passed; without timers there is no limit |
| Scheduler.ThreadMaster.Fetch | public/cmd/thread.c:535-604 | thread_fetch does to the six lists what the schedule on values says, for every clock and every select result |
| Schedules.PlaceFor | public/cmd/thread.c:348-360 | the place found for a new deadline keeps the timers sorted |
| Schedules.FetchKeeps | public/cmd/thread.c:535-604 | a fetch keeps descriptor sets exact and timers sorted and loses or invents no thread |
| Schedules.FetchOrder | public/cmd/thread.c:535-604 | events before all else and oldest first; a timer only with no event pending, reached, and with the least deadline; ready threads oldest first and only when no deadline was reached |
| Schedules.FetchExactly | public/cmd/thread.c:535-604 | for every clock and every select: rounds in which nothing happens are passed, and the first in which something does decides, in this order: an event, the earliest deadline that the clock has reached, a ready thread, a failed select, a descriptor waited for |
| Schedules.TimerServed | public/cmd/thread.c:562-567 | with no event pending and some deadline reached by the first clock, the first timer is given, whatever is ready |
| Schedules.FetchOutcomes | public/cmd/thread.c:549-603 | a ready thread is given only when every deadline is later than the clock of that round; the fetch fails if and only if select fails in a round with no event, no deadline reached and nothing ready; a descriptor waited for gives a thread |
| Schedules.ForMeans | public/cmd/thread.c:413-434 | cancelling by argument takes exactly the events that have it and keeps the others in order |
| Schedules.RunKeeps | public/cmd/thread.c:260-604 | over any run of additions, cancellations and fetches: what came in is on the lists, cancelled or given, each as often as it came |
| Schedules.EventsInOrder | public/cmd/thread.c:365-434 | over any run, events are given in the order they were added, whatever is cancelled in between |
| Schedules.ReadyInOrder | public/cmd/thread.c:510-604 | over any run, the ready threads given, and then those still ready, are in the order in which they became ready, whatever is cancelled in between |
| Getopts.SwapStretches | public/cmd/getopt.c:352-376 | two equally long stretches change places and nothing else moves |
| Getopts.TurnLong | public/cmd/getopt.c:345-361 | exchanging the short bottom part with the far end leaves a smaller rotation to do |
| Getopts.TurnShort | public/cmd/getopt.c:362-378 | the same when the top part is the short one |
| Getopts.Getopt.Exchange | public/cmd/getopt.c:307-385 | [nonoptions][options] becomes [options][nonoptions] with both orders kept, everything else untouched, and the record of where the non-options are moved along |
| Getopts.Getopt.Permuted | public/cmd/getopt.c:556-572 | the options found so far come first, then all non-options found, and the remaining elements are the next ones to parse |
| Getopts.Getopt.DoubleDash | public/cmd/getopt.c:574-590 | a -- joins the options, everything after it the non-options |
| Getopts.Getopt.Decode | public/cmd/getopt.c:771-967 | the next option character is decoded as the original list and the option string of this call say, with its argument taken from the element or the next one |
| Getopts.Getopt.Next | public/cmd/getopt.c:514-968 | under each of the three orderings a call returns the next item of the parse of the original list, non-options as they stand where the ordering returns them, and -1 exactly at its end, with optind at the first of the rest; the first call reads the option string without its mark and the later ones read all of it; without permuting, the list is untouched |
| Getopts.Run | public/cmd/getopt.c:970-980 | for every option string, marked or not: a whole run returns the parse of the original list and leaves program name, options with arguments and any --, then the rest, each in order, with optind at the first of the rest; a leading - returns every non-option in its place, a leading + or POSIXLY_CORRECT ends the options at the first non-option, and otherwise the list is permuted; it is the parse by the unmarked string where the mark is harmless |
| Arguments.MarkHarmless | public/cmd/getopt.c:410-421 | for every list the calls return what the option string without its mark says if and only if the mark is harmless: the mark is an option character of the rest anyway, in the same way, and where a colon follows it no option requires an argument |
| Arguments.MarkShows | public/cmd/getopt.c:410-421 | where the mark is not harmless, an argument list of one element shows it |
| Arguments.MarkHarms | public/cmd/getopt.c:410-421 | with -a the element -a- gives the option -, and with -:ba: the missing argument in -ba is reported as ? instead of : |
| Arguments.ParseInterleaves | public/cmd/getopt.c:461-512 | the two sides of the division, dealt together in their own orders, are the original list |
| Arguments.InterleavesPermutes | public/cmd/getopt.c:461-512 | so the new list is a permutation of the old one |
| Arguments.OthersAreArguments | public/cmd/getopt.c:533-543 | without a --, nothing left over has option syntax |
| Arguments.NeedMeans | public/cmd/getopt.c:922-932 | at the first place of a character in the option string: two colons behind it make its argument optional, one makes it required, none makes it a flag |
| Arguments.NoNeed | public/cmd/getopt.c:771-790 | a character is no option if and only if it is not in the option string or is a colon |
| Arguments.ElementMeans | public/cmd/getopt.c:771-967 | an element of flags and one more character: the flags are found in order, and then an option with the rest of the element or the next one as its argument, an optional one only in the element, or the error that the first colon of the option string chooses |
| Arguments.OrderingSays | public/cmd/getopt.c:410-421 | what each ordering does with the first element that is no option: given in its place, the end, or passed over |
| Arguments.LeadingArguments | public/cmd/getopt.c:592-620 | the same for any number of non-options in front: all given in their places, or all left for the end |
| Md5Rounds.MacrosAgree | public/cmd/md5.c:258-265 | the optimised FF, FG, FH and FI are F, G, H and I of section 3.4 of RFC 1321 |
| Md5Rounds.OpIsOperation | public/cmd/md5.c:309-321 | the macro OP with CYCLIC is the operation [abcd k s i] of section 3.4 for every shift amount in use |
| Md5Blocks.Round1 | public/cmd/md5.c:329-345 | the sixteen lines are round 1 of section 3.4 |
| Md5Blocks.Round2 | public/cmd/md5.c:360-376 | the sixteen lines are round 2 |
| Md5Blocks.Round3 | public/cmd/md5.c:378-394 | the sixteen lines are round 3 |
| Md5Blocks.Round4 | public/cmd/md5.c:396-412 | the sixteen lines are round 4 |
| Md5.ProcessOne | public/cmd/md5.c:294-419 | one block goes through the compression function |
| Md5.FoldConcat | public/cmd/md5.c:292-426 | hashing whole blocks in two stretches is hashing them in one |
| Md5.CarryFound | public/cmd/md5.c:285-290 | the comparison after the addition finds the carry if and only if low half plus length is below 2^33 |
| Md5.LengthWords | public/cmd/md5.c:122-125 | the two length words are the low-order 64 bits of the length in bits |
| Md5.PaddedMeans | public/cmd/md5.c:105-131 | the padded message is the message, the byte 0x80, as few zero bytes as make whole blocks, and the length in bits as one 64-bit number with the low-order byte first |
| Md5.LowFirst | public/cmd/md5.c:54-59 | words and bytes correspond with the low-order byte first, there and back |
| Md5.Context.ProcessBlock | public/cmd/md5.c:270-426 | registers are the fold over the blocks, the two halves of the count are as the carry rule says |
| Md5.Context.ProcessBytes | public/cmd/md5.c:212-255 | the staging buffer never holds more than 64 bytes between calls, and registers and buffer together stand for the whole message so far; below 2^32 bytes a call the count stays right |
| Md5.Context.Finish | public/cmd/md5.c:105-131 | padding and length as in sections 3.1 and 3.2, so the result is the digest of the message |
| Md5.HashParts | public/cmd/md5.c:212-255 | however a message is cut into calls each shorter than 2^32 bytes, the digest is that of the padded message at once |
| Md5.HashBuffer | public/cmd/md5.c:193-209 | md5_buffer gives the digest of its argument |
| Md5Vector.EmptyDigest | public/cmd/md5.c:193-209 | the digest of the empty message is the one in the test suite of section A.5 of RFC 1321, computed operation by operation, so every constant, shift and order of words is what it should be |
| LineEditors.FeedText | public/cmd/vty.c:404-413 | printing characters overwrite the cells from the cursor on |
| LineEditors.StillSound | public/cmd/vty.c:415-790 | every key keeps the cursor within the line and the history well formed |
| LineEditors.TypeAndRubOut | public/cmd/vty.c:426-444 | rubbing out what was just typed restores everything |
| LineEditors.KillWordIsMove | public/cmd/vty.c:749-757 | killing a word to the left removes exactly what moving over it passes |
| LineEditors.TransposeTwice | public/cmd/vty.c:759-780 | transposing twice at the end of the line changes nothing |
| LineEditors.EnterAndRecall | public/cmd/vty.c:1072-1102 | whatever string goes into the history is the first one recalled |
| LineEditors.LineIsString | public/cmd/vty.c:1084-1094 | the string that starts the buffer is the line if and only if the byte behind the line is zero, and begins with it in any case |
| LineEditors.EnteredDiffers | public/cmd/vty.c:1072-1102 | entering a line does what it should if and only if the line is empty or the string that is stored is the line |
| LineEditors.ShortLines | public/cmd/vty.c:415-424 | as long as no line reaches the bytes an enlargement added, every line is entered with a zero behind it |
| LineEditors.PreviousAndNext | public/cmd/vty.c:532-575 | one line back and one forward in the history is where one was |
| LineEditors.WordRightGoes | public/cmd/vty.c:585-594 | from in front of a word the cursor goes behind it and the blanks after it, and no further |
| LineEditors.KillWordRightTakes | public/cmd/vty.c:739-747 | exactly the blanks at the cursor and the word behind them go |
| LineEditors.WordLeftGoes | public/cmd/vty.c:604-613 | from behind a word and blanks the cursor goes in front of the word, and killing it takes exactly that |
| LineEditors.OneCharacterKeys | public/cmd/vty.c:472-492 | inside the line: left, right, delete, backspace and transposing move by, take or exchange exactly the characters at the cursor |
| LineEditors.OneCharacterAtEnd | public/cmd/vty.c:667-708 | the same at the end of the line |
| LineEditors.OneCharacterAtStart | public/cmd/vty.c:667-708 | the same at its start |
| LineEditors.WholeLineKeys | public/cmd/vty.c:494-509 | with the line written as what is in front of the cursor and what is behind it: what typing a character, home, end, killing the rest, killing all and ^C leave of it |
| LineEditors.EnterHolds | public/cmd/vty.c:1072-1102 | the history holds the last twenty lines entered, newest first, one that repeats the one before left out |
| LineEditors.RecallHeld | public/cmd/vty.c:532-575 | the previous-line key pressed k times brings back the k-th of them, counted from the newest |
| Vtys.EchoInsert | public/cmd/vty.c:433-443 | what is echoed for an inserted character leaves the terminal showing the new line, cursor behind the character |
| Vtys.EchoDelete | public/cmd/vty.c:686-697 | the same for a deleted character |
| Vtys.Vty.SelfInsert | public/cmd/vty.c:426-444 | the line has the character at the cursor, the buffer has grown if needed, the terminal shows it |
| Vtys.Vty.Overwrite | public/cmd/vty.c:446-460 | the character replaces the one at the cursor, or is added at the end |
| Vtys.Vty.DeleteChar | public/cmd/vty.c:667-697 | the character at the cursor is gone from line and terminal |
| Vtys.Vty.KillLine | public/cmd/vty.c:710-729 | the rest of the line is gone from line and terminal |
| Vtys.Vty.ForwardKillWord | public/cmd/vty.c:739-747 | the blanks and the word at the cursor are gone |
| Vtys.Vty.BackwardKillWord | public/cmd/vty.c:749-757 | the word and the blanks before the cursor are gone |
| Vtys.Vty.TransposeChars | public/cmd/vty.c:759-790 | the two characters around the cursor, or the last two, change places |
| Vtys.Vty.HistoryPrint | public/cmd/vty.c:514-530 | the line is replaced by one of the history, on the terminal too |
| Vtys.Vty.HistAdd | public/cmd/vty.c:1072-1102 | the string that starts the buffer enters the ring of twenty unless the line is empty or it repeats the one before; it is the line if and only if the byte behind the line is zero |
| Vtys.Vty.EndConfig | public/cmd/vty.c:626-665 | after ^Z the terminal still shows the line if and only if there was none, since the length is not reset |
| Vtys.Vty.Press | public/cmd/vty.c:1388-1460 | each key does to line, cursor, buffer and history what the editor on values says and keeps the terminal a mirror, if and only if it is not an Enter with a byte that is not zero behind the line |
| Vtys.PressAll | public/cmd/vty.c:1274-1461 | after any sequence of keys line, cursor and history are what the keys say, the terminal shows exactly the line, cursor included, and cp <= length < max, if and only if every line was entered with a zero behind it |
| Vtys.EnterLongLine | public/cmd/vty.c:415-444 | 512 characters, Enter and the previous-line key bring back a line with a character that was never typed |
| PagedBuffers.Buffer.Empty | public/cmd/buffer.c:96-104 | buffer_empty answers 1 if and only if nothing is left to write |
| PagedBuffers.Buffer.Write | public/cmd/buffer.c:150-188 | the bytes are appended to the content, over as many chunks as it takes |
| PagedBuffers.Buffer.Flush | public/cmd/buffer.c:217-268 | exactly the oldest bytes asked for are written and removed, the rest stays in order; the length field is not corrected |
| PagedBuffers.Buffer.FlushAll | public/cmd/buffer.c:270-298 | everything is written and the buffer is empty |
| PagedBuffers.Buffer.FlushVty | public/cmd/buffer.c:384-519 | the same prefix, with the erasure before it and the prompt after it if and only if something remains and it is wanted |
| PagedBuffers.Buffer.FlushVtyAll | public/cmd/buffer.c:300-380 | everything is written; the prompt follows whenever there was something and it is wanted |
| PagedBuffers.PageIsLeast | public/cmd/buffer.c:536-562 | a page is the shortest beginning of the content in which that many lines end |
| PagedBuffers.LinesWrapped | public/cmd/buffer.c:536-562 | without a newline a line ends at every byte that no longer fits in the width |
| PagedBuffers.LinesBroken | public/cmd/buffer.c:536-562 | a newline ends its line, and is counted as the first byte of the next |
| PagedBuffers.WindowHolds | public/cmd/buffer.c:529-533 | a page has one line less than the window, to leave room for the prompt, and a window without lines takes everything |
| PagedBuffers.Buffer.Measure | public/cmd/buffer.c:536-562 | the nested loops over chunks and bytes count a page's bytes whatever the chunk boundaries |
| PagedBuffers.Buffer.FlushWindow | public/cmd/buffer.c:521-568 | one page is written and removed, and at least one byte if there is any |
| PagedBuffers.PagesAreAll | public/cmd/buffer.c:521-568 | the pages are nonempty and together are the content in order |
| PagedBuffers.ShownAt | public/cmd/buffer.c:384-519 | of the pages written, each but the first erases the prompt in front of it and each but the last has one behind it |
| PagedBuffers.PromptErased | public/cmd/buffer.c:391-395 | the bytes that erase the prompt leave a terminal's cursor where it was before the prompt, and blanks |
| PagedBuffers.PageThrough | public/cmd/vty.c:1542-1575 | page after page is shown until the buffer is empty, nothing lost, the prompt between pages erased |
| PQueues.Upwards | public/cmd/pqueue.c:52-60 | one step up keeps the heap but for the element on its way |
| PQueues.Downwards | public/cmd/pqueue.c:75-94 | one step down keeps the heap but for the element on its way |
| PQueues.RootIsLeast | public/cmd/pqueue.c:153-160 | no element of a heap comes before its root, for any total preorder |
| PQueues.PQueue.TrickleUp | public/cmd/pqueue.c:44-64 | the moving hole ends in a heap with the same elements |
| PQueues.PQueue.TrickleDown | public/cmd/pqueue.c:66-98 | the same downwards |
| PQueues.PQueue.Expand | public/cmd/pqueue.c:123-140 | the array doubles and keeps its elements, or nothing changes without memory |
| PQueues.PQueue.Enqueue | public/cmd/pqueue.c:142-151 | exactly one element is added, or none when there is no memory for a larger array |
| PQueues.PQueue.Dequeue | public/cmd/pqueue.c:153-160 | exactly one element is removed, and it is a least one |
| PQueues.Drain | public/cmd/pqueue.c:153-160 | emptying a queue gives a sorted permutation of what was in it |
| RouteClauses.VisitsUpwards | public/cmd/routemap.c:775-807 | an evaluation applies clauses of strictly increasing preference, so it ends |
| RouteClauses.JumpRight | public/cmd/routemap.c:788-804 | a continue goes to the clause the table names if and only if the clauses it skips let it |
| RouteClauses.OneSkipped | public/cmd/routemap.c:788-804 | it does when at most one clause is skipped and that one's nextpref was never set |
| RouteClauses.TwoSkipped | public/cmd/routemap.c:794-798 | it does not for clauses 1, 2, 3 and 4 with a continue from 1 to 4 |
| RouteClauses.WalkReads | public/cmd/routemap.c:675-711 | where the clauses read right, evaluation agrees with the table from every clause on, for every route and every set of rules |
| RouteClauses.ReadsExactly | public/cmd/routemap.c:675-711 | evaluation agrees with the table for all rules and all routes if and only if no permit clause stands behind a deny clause with a plain continue, and each permit clause's continue goes where the table says or else both places have only deny clauses from there on |
| RouteClauses.DenyStops | public/cmd/routemap.c:764-786 | a deny clause with a plain continue in front of an empty permit clause: the table says the route is permitted and the code denies it |
| RouteMaps.GotKeeps | public/cmd/routemap.c:374-391 | asking for a clause keeps preferences strictly increasing and continues going forward |
| RouteMaps.RouteMap.Add | public/cmd/routemap.c:322-372 | the new clause is in front of the first whose preference is not smaller, in all four cases of the list |
| RouteMaps.RouteMap.Delete | public/cmd/routemap.c:275-306 | exactly that clause is gone |
| RouteMaps.RouteMap.Get | public/cmd/routemap.c:374-391 | one clause with that preference and type is there, a new one if the old had the other type, and the clauses are edited as the commands on values say |
| RouteMaps.RouteMap.ContinueAt | public/cmd/routemap.c:1010-1038 | a step that would not go forward is refused, and otherwise the clause's policy and target are set |
| RouteMaps.EditsKeep | public/cmd/routemap.c:275-391 | over any sequence of entering, deleting and continue commands preferences stay strictly increasing and continues go forward |
| RouteMaps.ApplyIndex | public/cmd/routemap.c:712-762 | the clause matches if and only if it has no match rule or some rule says match; otherwise the last rule's answer is returned; every set rule is run in turn, and only by a permit clause that matches |
| RouteClauses.SetsInTurn | public/cmd/routemap.c:751-752 | the set rules are run one after the other, each on what the ones before have made of the route |
| RouteClauses.SetsMore | public/cmd/routemap.c:751-752 | one more set rule is run on what the others have made of the route |
| RouteClauses.AppliedGives | public/cmd/routemap.c:712-762 | what applying a clause gives, said of its match and set rules one by one |
| RouteClauses.FirstDecides | public/cmd/routemap.c:764-810 | the first clause that matches, or whose last rule denies, decides unless it continues; with continue next the walk goes on behind it with the route it has changed; if there is none the route is denied |
| RouteMaps.Apply | public/cmd/routemap.c:764-810 | the loop that moves its own index computes the walk, and a missing map denies |
| ConfigLocks.Host.MutualExclusion | public/cmd/vty.c:2308-2328 | at most one terminal is in a configuration node, and while one is the lock is taken |
| ConfigLocks.Host.Lock | public/cmd/vty.c:2308-2317 | the lock is taken if it was free; the answer is whether this terminal has it |
| ConfigLocks.Host.Unlock | public/cmd/vty.c:2319-2328 | only the holder gives the lock back |
| ConfigLocks.Host.Configure | public/cmd/command.c:2090-2105 | configure terminal succeeds if and only if the lock was free; refused, some other terminal is configuring |
| ConfigLocks.Host.LevelUp | public/cmd/command.c:2134-2179 | exit goes one level up and gives the lock back exactly when it leaves the configuration node |
| ConfigLocks.LeavesByConfig | public/cmd/command.c:2134-2179 | exit leaves the configuring nodes only from the configuration node, and from each of them leads through it to the enable node |
| ConfigLocks.Host.ToEnable | public/cmd/command.c:2187-2223 | end leaves every configuration node and frees the lock |
| ConfigLocks.Host.Stop | public/cmd/vty.c:1032-1070 | ^C does the same, but not from the address families of BGP, which keep node and lock |
| ConfigLocks.Host.Close | public/cmd/vty.c:2016-2065 | a terminal that goes away leaves no lock behind |
| ConfigLocks.Interleave | public/cmd/vty.c:2308-2328 | over any interleaving of terminals that connect, act and go away the lock is taken if and only if one of them is configuring, and never are two |

## Left out

- Regex patterns are sequences of tokens: reading escapes and bracket expressions from characters, translate tables, RE_NEWLINE_ALT, intervals, back-references, anchors and word operators are not modelled.
- Regex text is one string; two-string matching, register reporting and the POSIX and BSD entry points are not modelled.
- RegexSoundness.MatchSound: bounds the number of rounds by a parameter and says what a returned answer means; that the matcher returns is proved in RegexReturns.MatchReturns for loops over one-character items and over groups with no choice in them only. Its PlainDotLines keeps out every escaped dot starred before a newline, though on some texts such a pattern is matched soundly.
- Reads outside the code or the registers give a default value in the model, so that there are none is said only of the opcodes and operands (RegexLayout.Opcode).
- RegexDecision.LongestRule: leaves out loops over groups with a choice in them, where it can fail (RegexNestedLoop.NestedMiss), patterns with more than 255 groups, the rest of which have no register, and RE_NO_POSIX_BACKTRACKING, which stops at the first match by design (RegexAnswer.AnswerIsEnd).
- RegexMisses.LongestExactly: leaves out alternatives, `?` of groups and repeated groups, where the condition suffices but another way through the pattern may match what a loop misses.
- RegexForced.LoopLeftByForce: speaks of groups with something in them; the loop over an empty group, which the code tells by its own test, is in RegexRepeats.BodyRounds.
- RegexPipeline.CompileAndSearch: asks for no escaped dot starred before a newline; of patterns that have one, those whose language happens to contain what the loop accepts are still matched soundly, which is not stated.
- RegexFastmap.CompileFastmap: reads the byte behind the code as no on_failure_jump where a final jump has length zero.
- RegexCompiler.Compiler.Compile: REG_ESPACE is modelled as code that would pass the largest buffer size, not as malloc failing.
- Code of 2^15 bytes and more: its jump offsets do not survive storing (RegexCode.ExtractStore), and nothing is proved about running it.
- Routing table: route_next_until, the IPv4 and IPv6 wrappers and the data behind info; a bit past an address's end reads as 0, where both links are null.
- thread_master_free, thread_execute, thread_call with its time accounting and the debug output.
- Scheduler.ThreadMaster.Fetch: takes the answers of the clock and of select from a finite list of rounds; where the original would go on waiting, the model says so when the list is used up.
- Getopts.Run: leaves out long options; -W with a semicolon needs them and is excluded by ShortOnly.
- getopt messages on standard error, and callers that move optind between calls beyond what FollowCaller states.
- Md5.Context.ProcessBytes: keeps the byte count right for calls below 2^32 bytes; the exact bound is Md5.CarryFound. md5_stream is file reading around the same functions.
- The words of a block are read little-endian, as SWAP makes them on either kind of machine; the constants of section 3.4 are given as numbers, not computed from the sine.
- Vtys.Vty.Press: does not model tab completion, the question mark, telnet options, paging keys or the password nodes, where nothing is echoed; in those, killing a word forward with the cursor inside the line does not end.
- Vtys.Vty.HistAdd: takes the string to end with the buffer where no zero does end it; what the original reads behind its buffer then is not modelled.
- A new prompt is taken to start a fresh terminal line, and a line longer than the terminal is wide does not wrap.
- PagedBuffers chunks hold the sequence of bytes stored so far instead of a fixed array, and writev writes everything, so splitting by IOV_MAX does not show.
- PQueues.PQueue.Dequeue: asks for a nonempty queue, as its callers must.
- RouteClauses.WalkReads: the table does not say what a deny clause's own rules may answer and what a deny clause with a numbered continue does; there Read follows the code.
- Route-map names, the list of route-maps, rule installation and event hooks; a clause's rules are sequences.
- The vty that reads the configuration file enters the configuration node without the lock, before terminals are served, and is not one of the terminals in ConfigLocks.
- Hash tables, vectors, linked lists, streams, logging, sockets and the client and server programs would add only easier members.
