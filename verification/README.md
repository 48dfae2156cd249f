# Henry Spencer's regular expression engine, and two smaller algorithms of POSTGRES95

The core of this project is the matching engine in `include/regex/engine.c`: a matcher that
simulates a nondeterministic automaton with one sweep per character, finds longest matches with it,
reconstructs subexpressions by asking it again and again, and falls back on backtracking for back
references. The project models the *strip* it runs on, the code generator that produces strips, and
every routine of the engine, and proves

* that the paths through the strip of an expression are exactly the matches of the expression, with
  `^`, `$`, word boundaries and nested loops, options, alternations and groups
  (`Thompson.PathsAreMatches`, `Syntax.SpansAreLang`), and that the code generator, which builds
  strips by inserting operators before code already emitted and patching offsets, emits the strip of
  the expression (`CodeGen.Parse.Generate`, `CodeGen.Parse.Repeat`);
* that the single left-to-right sweep of `step`, with its jumps back at the end of loops, computes
  the least closed set of states (`Stepper.Step`), and that the rounds between characters reach
  their fixed point because each one that changes anything passes a new anchor (`Simulation.Rounds`);
* that `slow` returns the longest match and `fast` the first end of any match, with `coldp` pinned
  down exactly, given that `nbol` and `neol` count the anchors (`Engine.Matcher.Slow`,
  `Engine.Matcher.Fast`), and on which expressions no character leads back into a fresh state, so that
  the start is leftmost (`Reentry.SafeIffNoReentry`);
* that `dissect` computes a declaratively given table of captures (`Engine.Matcher.Dissect`); that in this
  table every group, copied or not, either took no part or matched exactly the span it reports, if it has
  no word boundary inside (`Nesting.DissectionMatchesBodies`); and that it lies inside the group around it
  if groups that are copied record all that is in them (`Nesting.DissectionIsWellNested`,
  `Crossing.NeverCrossIffSteady`);
* that `backref` computes what its reference says, undoes what it did when it fails, meets every one of
  its assertions on compiled code however deep its calls get (`Compile.NoAssertionFails`), ends where +
  bodies take text (`Bounds.RunEnds`), accepts only paths on which each back reference took the text its
  group had captured at that moment if alternations stand at the end (`TailChoice.Sound`,
  `Compile.AcceptedHasPath`), and misses none of those its own tests of the anchors allow where + bodies
  leave no choice, or where no back reference follows and loops stand one to a level, or where such
  alternatives stand at the end (`Chains.BacktrackingIsExact`, `LastChoice.BranchesMissNothing`); with the anchors of the rest of the engine that is so on all texts but
  those that end in a newline under REG_NEWLINE (`AnchorTests.RightIffSighted`, `Compile.RefusedHasNoPath`);
* that `matcher`, on compiled code, succeeds exactly when some text is in the language, and what its
  report means (`Matching.RunMatcher`, `Compile.ReportMeans`).

The other two parts are the block addresses of hash indexes (`HashAddr`), where buckets and
overflow pages map one-to-one and without gaps onto blocks and never move as the table grows, and
the pull iterator `ExecScan`, which is filter followed by flatten.

Where the code does less than one would expect of it, the exact condition or an example on compiled
code is proved:

* `fast` can miss the leftmost start (`LeftmostLimit`);
* the last pass of a loop need not reach the end of its piece: it does if and only if longest matches of
  the body never lead astray, and always for bodies of one width (`LastPasses`);
* a bounded repetition has more anchors than are counted if and only if its operand has one and is
  copied, and then searches can miss matches (`FewRounds`);
* groups that are copied can be reported one outside the other, and a group with a word boundary inside can
  be reported to have matched what it does not match (`GroupLimits`);
* a back reference behind an alternation is not looked at (`ChoiceLimit`);
* a loop can be left for good because of what a failed way has noted (`StaleLoop`);
* backtracking does not find the beginning of a line behind the newline a text ends in (`AnchorLimit`);
* backtracking may never end where a + body can be empty (`Endless`);
* the search can be left with nowhere to start (`Limits`);
* a full split hands out a page that is none and refuses one that is (`HashAddr.OwnBlockIffRoom`,
  `HashAddr.MetaPage.PageOfBit`);
* an empty set in a target list ends the scan (`ExecScan.CompleteIff`).

## How it is arranged

| module | what it holds |
|---|---|
| Strip, Text, Regex | the operators; the text and what is visible of it at a position; expressions as the strip lays them out and their meaning |
| Paths, Thompson | a strip as a graph over states and positions; its paths are the matches |
| Stepper, Simulation | `step`; what the state sets mean; what happens between two characters |
| Captures, Engine | the reference table of captures; `class Matcher` with `slow`, `fast`, `dissect`, `backref` |
| Backtrack, Bounds | backtracking as a function; the same with a bound on the depth of calls |
| Consuming, Levels, Sanity | the expressions whose loops take text; what the parser guarantees of loops and groups; the assertions of backtracking |
| BackrefSound, TailChoice | what success and failure mean |
| BackrefExact, Chains, LastChoice, AnchorTests | where backtracking misses nothing |
| Matching | `matcher` |
| Syntax, CodeGen, Counting, Must, Compile | expressions as users write them; the code generator; `nbol` and `neol`; `findmust`; all of struct re_guts, and end-to-end statements |
| Groups, Nesting, Crossing | how a match is divided among the parts of an expression; what is then reported of groups; copies of groups |
| Reentry, LastPasses | which expressions `fast` is leftmost for; the walk over the passes of a loop |
| LeftmostLimit, FewRounds, GroupLimits, ChoiceLimit, StaleLoop, AnchorLimit, Endless, Limits, Replay | the engine's limits; how a run is followed step by step |
| HashAddr, ExecScan | the hash index addresses; the scan |

The position of an attempt carries a mark when a word boundary was just passed there, because the
engine takes one step for `\<` or `\>` at a position and does not go back to `^` and `$`: with the
mark, the meaning given to expressions is exactly what the engine does. State sets are sets of state
numbers, as in the one-word representation of `src/backend/regex/regexec.c`, where `bef` is passed by
value. Assertions of the original are proved where they hold; where one can fail, the model says
what it then does. `Outcome.Failed` carries the line of the assertion of `matcher` that fails, 252 or
278 of `engine.c`. Where a comment and the code
disagree, the model follows the code: `include/access/hash.h` (line 32) says that overflow offsets
start at 1, while `hashovfl.c` (line 171) hands out offset 0 when a split is full.

## Model

| member | source | states |
|---|---|---|
| Stepper.LookForOCh | include/regex/engine.c:973-982 | the look-ahead of OOR1 finds the O_CH that ends the chain of OOR2 offsets |
| Stepper.SymbolMove | include/regex/engine.c:908-938 | an operator that consults the input moves on exactly by the character asked for, any character, a character of the set, or the code of the anchor |
| Stepper.Effect | include/regex/engine.c:902-993 | what one operator adds to the set: all its forward moves and its move by the symbol, and nothing else |
| Stepper.Step | include/regex/engine.c:886-998 | despite the single sweep and its jumps back at O_PLUS, the result is the least set that holds `aft` and the moves of `bef` and is closed under every empty move; the sweep terminates |
| Thompson.LayoutIsLaid | include/regex/regex2.h:61-109 | a strip that holds the layout of an expression has it laid out operator by operator, every offset leading to its counterpart |
| Thompson.LaidIsRange | include/regex/regex2.h:61-109 | in a laid-out range every look-up and jump of the sweep stays in the range |
| Thompson.PathsAreMatches | include/regex/regex2.h:61-109 | paths through the strip of an expression from its first state to its last are exactly the expression's matches in that text, for nested +, ?, choice, groups and anchors |
| Simulation.SettledFromClosures | include/regex/engine.c:730-761 | the line rounds and the word step turn the states that entered a position into exactly those some path has reached there |
| Simulation.EnterNext | include/regex/engine.c:767-774 | a step over a character turns the states reached at one position into those entering the next, restarts included |
| Simulation.ColdIffFresh | include/regex/engine.c:727-728 | the state set equals the fresh set exactly when every character move into the position lands in a fresh state |
| Simulation.Rounds | include/regex/engine.c:743-747 | n steps with the code; for n at least the number of anchors that hold here they reach the least set closed under empty moves and those anchors |
| Simulation.Settle | include/regex/engine.c:730-761 | everything done between two characters: as many rounds for the line anchors that hold as are counted, which is the closure under them if the counts are right, then one step past a word boundary |
| Engine.Matcher.Slow | include/regex/engine.c:790-869 | if nbol and neol count the anchors of the range: the greatest end by `stop` of a path from `start`, None if and only if there is none, early exit included; where it stops where it starts, one settling of the fresh states, however few rounds are counted |
| Engine.Matcher.Fast | include/regex/engine.c:699-783 | under the same condition: None if and only if no path begins and ends in the text; otherwise one more than the first end of any; coldp is the last cold position before it, some such path begins at coldp or after, and none before it if no text is matched past a fresh start |
| Engine.Matcher.SplitOff | include/regex/engine.c:372-384 | the shrinking loops end with the longest piece after which the rest matches the rest, without a failed assertion |
| Engine.Matcher.LastIteration | include/regex/engine.c:411-424 | the last match of a + body, taking the longest each time |
| Engine.Matcher.DissectQuest | include/regex/engine.c:371-394 | ?: the longest piece, and its captures if the body matches |
| Engine.Matcher.DissectPlus | include/regex/engine.c:395-430 | +: the longest piece, and the captures of its last pass, a span the body matches |
| Engine.Matcher.DissectChoice | include/regex/engine.c:431-465 | choice: the longest piece, and the captures of the first branch that matches all of it |
| Engine.Matcher.Dissect | include/regex/engine.c:310-491 | given a match of the range, returns `stop` and leaves the reference table of captures |
| Captures.SplitExists | include/regex/engine.c:372-384 | a matching construct splits from what follows it, so the shrinking loops find a place |
| Captures.LastPassSpans | include/regex/engine.c:411-427 | the span handed to the recursive call is one the body matches, whether or not the passes reach the end |
| Groups.Recorded | include/regex/engine.c:310-491 | what dissect records of a part of an expression is what recording some division of the text among its parts leaves: optional parts, loops and alternations take the longest piece after which the rest matches the rest, an alternation by the first of its branches that matches the piece, an optional part as nothing only if it does not match it, a loop by the pass a walk of longest matches ends with; and each part without word boundaries matches what falls to it |
| Nesting.DissectionMatchesBodies | include/regex/engine.c:310-491 | if groups of the same number are copies of one another, then after dissection each is unset, or lies within what was dissected with a span its body matches (bodies without word boundaries) |
| Nesting.DissectionIsWellNested | include/regex/engine.c:310-491 | if moreover a group that can take part twice in a row always takes part with all that is in it, each group is unset with all inside it, or has a span inside the enclosing one |
| Nesting.DistinctIsOrderly | include/regex/engine.c:310-491 | that is so where no group is copied |
| GroupLimits.BoundedIsAlike | src/backend/regex/regcomp.c:1036-1102 | bounded repetition makes groups of the same number copies of one another |
| GroupLimits.BoundedIsOrderlyIff | src/backend/regex/regcomp.c:1036-1102 | a bounded repetition meets the condition for nesting if and only if its operand does, and is not copied or has only groups with which all that is in them takes part |
| Crossing.NeverCrossIffSteady | src/backend/regex/regcomp.c:1036-1102 | for two copies of a group that condition is exact for the shape of the expression: every way to divide a text between them records what is inside within what is around it, if and only if all that is in the group takes part whenever it does |
| GroupLimits.GroupsApart | include/regex/engine.c:431-481 | without it matcher reports, for a group of (a) or b, twice, on "ab", [1, 2] for the first group and [0, 1] for the second, which is inside the first |
| GroupLimits.BodyUnmatched | include/regex/engine.c:371-394 | with word boundaries matcher reports, for x, a group in which an optional a that ends a word is followed by a- or the end of a word, and an optional -, on "xa-", [1, 2] for the group, whose body does not match that |
| Reentry.SafeIffNoReentry | include/regex/engine.c:727-728 | a condition that can be checked on the expression, which holds if and only if no operator of its code that takes a character leads into a fresh state |
| Reentry.UnionFreeIsSafe | include/regex/engine.c:727-728 | it holds of every expression without alternation, so for those the start found is leftmost |
| Backtrack.EasyStep | include/regex/engine.c:523-588 | the easy operators move forward in the strip and never back in the text |
| Backtrack.Run | include/regex/engine.c:498-692 | backtracking as a total function: it succeeds only by reaching `stop`, and keeps the sizes of its tables |
| Compile.NoAssertionFails | include/regex/engine.c:600-682 | on compiled code every call of a run, however deep, meets its assertions and stays within its tables and the strip, whether or not the run comes to an end |
| Levels.Numbered | include/regex/engine.c:663-664 | every group number in the code of a well-parenthesised expression is between 1 and nsub |
| Sanity.CodeSane | include/regex/engine.c:622-639 | by induction over the expression: runs behind a part that meet their assertions make runs from before it do so, at the level of its nesting and with the groups open there |
| Bounds.Agrees | include/regex/engine.c:498-692 | where every + body takes text, a run with a bound on the depth of calls that is not cut short gives what the reference says |
| Bounds.RunEnds | include/regex/engine.c:498-692 | and some bound is enough |
| Endless.NoDepthIsEnough | include/regex/engine.c:629-639 | for `\(b\)*\(a*\)*\1` on "ab", which matches with the back reference left out of account, no bound is: the body that takes nothing finds the place of a failed pass noted and is begun again |
| Engine.Matcher.Backref | include/regex/engine.c:498-692 | result and both tables are those of the reference; terminates when every + body takes text, since text left and reachability of a loop end decrease together |
| Engine.Matcher.BackrefBack | include/regex/engine.c:600-616 | back reference: fails when unset, too long or different; else goes on behind the O_BACK |
| Engine.Matcher.BackrefAgain | include/regex/engine.c:628-639 | O_PLUS: leaves the loop after an empty pass, else tries another pass and leaves the loop if that fails |
| Engine.Matcher.BackrefChoice | include/regex/engine.c:640-660 | choice: the first branch that reaches `stop` |
| Engine.Matcher.BackrefLParen | include/regex/engine.c:661-671 | the start of a group is restored when the rest fails |
| Engine.Matcher.BackrefRParen | include/regex/engine.c:672-682 | the end of a group is restored when the rest fails |
| BackrefSound.Restores | include/regex/engine.c:617-682 | whenever backref fails, through any depth of recursion, every capture is what it was at entry |
| BackrefSound.HopTakes | include/regex/engine.c:523-541 | the text a move of backtracking takes is the character asked for, any, one of the set, or for a back reference text equal to that of the group |
| BackrefSound.Sound | include/regex/engine.c:498-692 | on choice-free strips, success means a path from the first state to the last that takes exactly the text, on which each back reference takes text equal to its group's capture at that moment and whose captures are the reported ones |
| TailChoice.Sound | include/regex/engine.c:640-660 | the same for code with alternations, in which nothing but ends of loops and of optional parts follows an O_CH |
| TailChoice.OneBranch | include/regex/engine.c:644-660 | a branch that reaches the end of the text does so by a path to behind the choice, whichever branch it is |
| ChoiceLimit.ChoiceUnchecked | include/regex/engine.c:640-647 | elsewhere success need not mean that: matcher reports all of "ba" for `\(b*\)a\{0,1\}\1`, although no path with consistent back references takes it |
| Consuming.CodeIsFine | include/regex/engine.c:596-682 | the code of every expression whose + bodies cannot be empty meets the hypotheses of termination and soundness |
| Consuming.BodyCannotLoop | include/regex/engine.c:628-639 | from the beginning of such a body no O_PLUS is reached without taking text |
| Matching.Prescreen | include/regex/engine.c:176-183 | finds the literal if and only if it stands somewhere in the text |
| Matching.FindStart | include/regex/engine.c:210-219 | the find-start loop ends without leaving the text, at the first start from coldp that has a match, with the longest one |
| Matching.Try | include/regex/engine.c:246-246 | one backtracking run from cleared captures; when it fails they are still clear |
| Matching.TryAll | include/regex/engine.c:237-271 | backing off: every longer match from this start was tried and refused; without back references only the longest is tried; the assertions at lines 264-265 hold |
| Matching.Search | include/regex/engine.c:200-279 | the outer loop gives an answer: see Matching.RunMatcher |
| Matching.FillIn | include/regex/engine.c:281-295 | the caller's table shows the match and the groups there are, and is unset beyond |
| Matching.RunMatcher | include/regex/engine.c:144-303 | without back references: success if and only if there is a match in [start, stop], the one reported is longest from its start and, without reentry, leftmost, the groups are dissect's; with them: success means an accepted match, every longer one from there refused and, without reentry, every earlier one too; failure means, without reentry, that all were refused; the assertion at line 252 fails only when backtracking without back references refuses the longest match from some place, the one at line 278 otherwise if and only if the search fails and something matches at the very end; a failed call changes nothing |
| Matching.AnswerSays | include/regex/engine.c:163-250 | the same in terms of the caller's nmatch and the flags: when backtracking decides and when dissect does, and that with REG_NOSUB nothing is wanted |
| Matching.MatchHoldsLiteral | include/regex/engine.c:175-183 | the prescreening loses no match, since the literal is one every match contains (for what findmust finds that is Must.ScanIsMandatory) |
| Syntax.EmitMeans | src/backend/regex/regcomp.c:457-477 | what is emitted for an expression, a star as an optional plus and an option as an alternation, matches what the expression matches |
| Syntax.SpansAreLang | src/backend/regex/regcomp.c:317-500 | the emitted code matches a text if and only if the text is in the language |
| Syntax.SymbolMatches | include/regex/engine.c:730-761 | single symbols match what the text has there: the character, any, one of the set, the beginning or end of a line or of a word, with the flags and the mark |
| Syntax.WordsAreMadeOf | include/regex/regex2.h:175-175 | words are made of letters, digits and the underscore |
| CodeGen.Parse.Insert | src/backend/regex/regcomp.c:1520-1553 | an operator put in before what stands from `pos` on |
| CodeGen.Parse.MakeStar | src/backend/regex/regcomp.c:458-464 | x* with both insertions gets the layout of an optional plus, offsets included |
| CodeGen.Parse.MakeOpt | src/backend/regex/regcomp.c:469-477 | x? gets the layout of an alternation of x and nothing, after all corrections of offsets |
| CodeGen.Parse.GenerateBranches | src/backend/regex/regcomp.c:334-353 | a chain of alternatives gets the layout of a choice, whatever their number |
| CodeGen.Parse.Generate | src/backend/regex/regcomp.c:317-500 | generating code appends exactly the layout of the expression |
| CodeGen.Parse.Repeat | src/backend/regex/regcomp.c:1036-1102 | a bounded repetition turns the operand at the end of the strip into the code of its expansion: plain copies, then optional ones, then a last one, or plain copies with the last under a +, all of it optional if the lower bound is 0 |
| CodeGen.BoundedMeans | src/backend/regex/regcomp.c:1056-1101 | the expansion matches what between m and n matches of the operand in a row match, for all bounds the parser allows |
| CodeGen.BoundedForm | src/backend/regex/regcomp.c:1056-1101 | the code of the expansion in closed form |
| Counting.CodeIsCounted | src/backend/regex/regcomp.c:406-416 | without bounded repetition the counts of ^ and $ the parser keeps are exactly those of the strip, so there are enough rounds |
| FewRounds.SeenBounded | src/backend/regex/regcomp.c:1056-1101 | the expansion of a bounded repetition has its operand's anchors as many times as the operand is copied |
| FewRounds.CoversIff | src/backend/regex/regcomp.c:1056-1101 | the counts kept while the operand was parsed cover that code if and only if the operand has no anchor or is not copied |
| FewRounds.HatsMissed | include/regex/engine.c:743-747 | on the code of `(^){2}`, which matches the empty text, and with the one ^ that was counted, fast and slow both find nothing |
| Must.SkipOptional | src/backend/regex/regcomp.c:1656-1668 | the chain of offsets ends at the construct's own O_QUEST or O_CH |
| Must.FindMust | src/backend/regex/regcomp.c:1624-1699 | the longest run of characters that nothing optional interrupts, the first of its length; none if it would be empty |
| Must.ScanIsMandatory | src/backend/regex/regcomp.c:1614-1624 | every match of the expression contains that run |
| Must.ScanKeeps | src/backend/regex/regcomp.c:1624-1699 | what has been collected is given up only for a longer run |
| Must.NoLongerRun | src/backend/regex/regcomp.c:1624-1699 | no run of characters outside optional parts is longer than what findmust collects |
| Compile.PlusCount | src/backend/regex/regcomp.c:1705-1735 | the deepest nesting of + loops in the expression; the strip is balanced, so BAD is not set |
| Compile.Compile | src/backend/regex/regcomp.c:276-296 | what regcomp leaves in struct re_guts meets everything matcher relies on; its literal is what findmust finds |
| Compile.SucceedsIffInLanguage | include/regex/engine.c:144-303 | there is a match to report if and only if some text between the bounds is in the language |
| Compile.ReportMeans | include/regex/engine.c:144-303 | the reported text is in the language, nothing longer from its start is, nothing from an earlier start is if there is no alternation; groups match what they report if equal numbers mean copies (bodies without word boundaries), and are well nested if what is copied takes part with all that is in it |
| Compile.AcceptedHasPath | include/regex/engine.c:234-250 | a match accepted by backtracking, for expressions whose loops take text and whose alternations stand at the end, is a path with consistent back references ending in the reported captures, of the moves backtracking makes and so of those of the rest of the engine too |
| Chains.BacktrackingIsExact | include/regex/engine.c:617-639 | where nothing is chosen inside + bodies, or from some point on there is one loop at each level and no back reference, backtracking succeeds if and only if there is a path to the end with consistent back references whose anchors pass backref's own tests |
| LastChoice.BranchesMissNothing | include/regex/engine.c:640-660 | the same for code with alternations at the end, nested or not: backtracking succeeds if and only if there is a path through one of the branches |
| LastChoice.FirstBranchFound | include/regex/engine.c:640-660 | and what it then finds, captures included, is what the first branch finds by which there is a path |
| AnchorTests.HopIsMove | include/regex/engine.c:534-571 | those tests are the ones of fast and slow, but for ^ at the end of a text that ends in a newline, with REG_NEWLINE |
| AnchorTests.RightIffSighted | include/regex/engine.c:534-571 | so on such code, held to some end, backtracking succeeds if and only if there is a path with the anchors of fast and slow, if and only if that end is not one behind a newline where the text ends, with REG_NEWLINE |
| AnchorTests.WalkIsWay | include/regex/engine.c:750-761 | the one step the rest of the engine takes past word boundaries at a place only takes paths away, and none where there is no word boundary |
| AnchorTests.FindsEveryWalk | include/regex/engine.c:534-571 | so away from such an end, or without ^, backtracking finds every path the rest of the engine can take with consistent back references, and without word boundaries no other |
| AnchorLimit.AnchorMissed | include/regex/engine.c:534-540 | at such an end it can fail though there is one: with REG_NEWLINE matcher reports no match for `\(a\)\1`, a newline and `\(^\)` on "aa" and a newline, all of which matches with a consistent back reference |
| Chains.AgainFair | include/regex/engine.c:629-636 | what makes it so: an entry of lastpos that ends a pass which took text is a place from which its loop has been tried in vain |
| Chains.CapturesDoNotMatter | include/regex/engine.c:600-616 | where no back reference follows, whether there is a path does not depend on the captures |
| BackrefExact.PassExact | include/regex/engine.c:629-639 | the same from the beginning of a pass: another pass or the way out, and the entry in lastpos never ends a pass that took text |
| Compile.RefusedHasNoPath | include/regex/engine.c:245-278 | so for such expressions, also with alternations at the end, what matcher gave up on has no such path, from any table of cleared groups; and none with the anchors of fast and slow, unless there is a ^ and the text ends in a newline, with REG_NEWLINE |
| StaleLoop.StalePassMissed | include/regex/engine.c:629-636 | with two loops at a level it can fail though there is one, captures playing no part in it: on "xabxb" matcher reports the first three characters for `\(\)\1\(xa*\(ab\)*\)\{1,\}b\{1,\}`, although a path with consistent back references takes all five |
| LeftmostLimit.LeftmostMissed | include/regex/engine.c:201-220 | for a choice of a* and b, in a group, followed by c, on "bc", all of which matches, fast and slow settle on the c alone |
| LastPasses.ExhaustsIff | include/regex/engine.c:413-425 | the assertion at line 425 holds of every walk over a piece the loop fills, if and only if a longest match of the body that falls short of the end always moves on to a place from which the loop can fill the rest (bodies without word boundaries) |
| LastPasses.KeepsFillingSuffices | include/regex/engine.c:413-425 | that condition suffices for every body |
| LastPasses.FixedWidthExhausts | include/regex/engine.c:413-425 | so the assertion holds for every body all of whose matches have the same width, above none |
| LastPasses.PlusStopsShort | include/regex/engine.c:413-425 | it fails for one or more of a, ab and bc on "abc", which matches |
| Limits.NowhereLeft | include/regex/engine.c:275-278 | matcher itself, on "" and `\(x\(a*\)\)*\2`, ends in the failed assertion at line 278 |
| HashAddr.HashLog2 | src/backend/access/hash/hashutil.c:109-116 | the least i with 2^i at least the argument, for arguments up to 2^31 |
| HashAddr.OAddrRoundTrip | include/access/hash.h:46-50 | split number and offset go round through 16 bits if and only if they have 5 and 11 bits |
| HashAddr.BlockOfAddress | include/access/hash.h:54-56 | the macro, given an address put together from parts that fit, finds the block of those parts |
| HashAddr.OneToOne | include/access/hash.h:52-56 | for cumulative SPARES, pages and blocks from 1 to the last go together one-to-one and without gaps; block 0 is never one |
| HashAddr.PageAtHas | include/access/hash.h:52-56 | the page computed for a block stands on that block |
| HashAddr.BlockHasPage | include/access/hash.h:52-56 | the block computed for a page leads back to that page |
| HashAddr.AddKeeps | src/backend/access/hash/hashovfl.c:156-160 | a new overflow page in the last split moves no page, and gets the block after the last |
| HashAddr.ExpandKeeps | src/backend/access/hash/hashpage.c:399-415 | a new bucket moves no page |
| HashAddr.AllotKeeps | src/backend/access/hash/hashovfl.c:156-172 | a new overflow page moves no page either when its split is full and the next is opened |
| HashAddr.NothingEverMoves | include/access/hash.h:109-115 | in any run of overflow pages and buckets, full splits and the last split included, every page stays where it was put |
| HashAddr.MetaPage.NewPage | src/backend/access/hash/hashovfl.c:156-216 | LAST_FREED, SPARES, OVFL_POINT and the address handed out, in a split with room, in a full one and in the last, with a page for a new bitmap first or not, or with no bitmap left; none when there is no split left |
| HashAddr.NewPageAllots | src/backend/access/hash/hashovfl.c:156-212 | that is one or two steps of the table's growth; when the first of two opens a split, the page named is the first counted there, not the second |
| HashAddr.OwnBlockIffRoom | src/backend/access/hash/hashovfl.c:164-172 | the address handed out is on a block of its own if and only if the split had room; the offset 0 of a full split is the block of a bucket |
| HashAddr.MetaPage.ExpandTable | src/backend/access/hash/hashpage.c:399-415 | one more bucket, and a new split when it starts a generation |
| HashAddr.MetaPage.PageOfBit | src/backend/access/hash/hashovfl.c:243-248 | the page a bitmap bit stands for; refused if and only if it is the last page of a full split |
| HashAddr.BitsFollow | src/backend/access/hash/hashovfl.c:356-358 | bits follow pages in order, so different pages have different bits |
| ExecScan.ScanState.NextTuple | src/backend/executor/execScan.c:94-122 | the fetch loop stops at the first tuple for which the qualification holds or there is none; it does not hold of those skipped |
| ExecScan.ScanState.Next | src/backend/executor/execScan.c:42-135 | the first of the values still to come, of the current tuple before those ahead; the rest is what is still to come |
| ExecScan.ScanState.All | src/backend/executor/execMain.c:641-659 | calling until the first empty slot gives all that was to come, in order |
| ExecScan.FlatIsOfQualifying | src/backend/executor/execScan.c:94-122 | filter, project and flatten gives the values of exactly the tuples for which the qualification holds, in their order |
| ExecScan.CompleteIff | src/backend/executor/execScan.c:84-134 | that is the concatenation of the projections of all qualifying tuples if and only if no qualifying tuple without values stands before one with some |

## Left out

- Engine.Matcher.Fast: the start it finds is shown leftmost only when no text is matched past a fresh start (NoReentry); LeftmostLimit.LeftmostMissed shows that this cannot be dropped, but the condition is sufficient and not necessary: it is one on the strip, and some text may never bring the state set back to the fresh one.
- Engine.Matcher.Backref: requires every + body to take text (a condition on the expression is Consuming.Consumes); Endless.NoDepthIsEnough shows that otherwise it may never return.
- Matching.RunMatcher: with back references it requires + bodies that take text, as Engine.Matcher.Backref does; a refusal says that backtracking failed; that there is then no consistent path is shown for the expressions of Compile.RefusedHasNoPath, and StaleLoop.StalePassMissed shows that it does not hold for all.
- Chains.BacktrackingIsExact: its paths pass ^ by backref's own test, as AnchorTests.HopIsMove says; the condition is sufficient and not necessary; two loops at a level need not disturb each other on every text.
- LastChoice.BranchesMissNothing: alternations inside loops, of which each branch is held to all that is left, so that later passes are missed.
- TailChoice.Sound: the condition is sufficient and not necessary; what follows an alternation may be passable without text, but its groups then go unreported.
- LastPasses.ExhaustsIff: bodies without word boundaries, since two passes on either side of one need not make a match of the loop; LastPasses.KeepsFillingSuffices holds for all.
- Nesting.DissectionIsWellNested: the condition on copies is sufficient and not necessary, since some text or some order of branches may never let a copy take part without what is inside; Crossing.NeverCrossIffSteady says how far it is exact.
- Nesting.DissectionMatchesBodies: that a body matches its span is said of bodies without word boundaries; GroupLimits.BodyUnmatched shows that it does not hold of all.
- AnchorTests.FindsEveryWalk: with word boundaries backtracking may take paths the rest of the engine does not, since it does not stop at one step past them.
- Counting.CodeIsCounted: expressions compiled without bounded repetition; for those with it see FewRounds.CoversIff.
- Compile.Compile: expressions with neither back references nor bounded repetition; the code of those is built by CodeGen.Parse.Repeat, or laid out directly in the examples.
- CodeGen.Parse.Insert: the paren pointers pbegin and pend, which insertion also moves, are not modelled, nor the emission of back references that uses them.
- HashAddr.NothingEverMoves: runs in which block numbers fit in 32 bits and there is a number for every split that is opened; that the page named by a full split is none of its own is HashAddr.OwnBlockIffRoom.
- HashAddr.MetaPage.NewPage: the search of the bitmaps for a free page, and the contents of the new bitmap.
- ExecScan.ScanState.Next: calls after the first empty slot, a missing projection (pi_slot null) and an empty target list; the qualification and the projection are parameters.
- The array representation of state sets, in which bef and aft may be the same array, so that one sweep over an anchor step could pass consecutive anchors; the width of a state word.
- The text of expressions: the parser's input, its errors, bracket expressions, case folding, and the character categories; an expression arrives parsed, with its sets numbered.
- REG_NOTBOL in backref's tests reads the character before the text; it is taken not to be a newline or a word separator there.
- Allocation failure, REG_TRACE and the printing routines, signedness of characters, locale.
- Hash pages, buffers, locks and the catalogs; SETBIT, CLRBIT and the bit search within a bitmap word.
