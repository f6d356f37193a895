# Mockryx, modelled and proved in Dafny

Mockryx replays crafted requests at an operator's own gateway and decides whether each guardrail held. This project
models the parts of it where a wrong answer would be believed: the shell masker behind the "no reader leaves a pipe
early" gate, the file watcher, the rehearsal engine with its verdicts, redaction and exit codes, the scenario
validation, the argument loop, and the wire form of messages. `dafny verify dfyconfig.toml` checks all of it.

| file | models |
|---|---|
| `Options.dfy`, `Text.dfy` | optional values; searching and slicing strings |
| `Masker.dfy` | `mask`: one turn of its loop as a function, and the loop itself over an array it overwrites and a frame stack |
| `ShellTrees.dfy` | the independent reference: a grammar of shell with its own characters, how it prints, when it can be told from its print, when a shell tells it so, and what must be left of it |
| `MaskerPath.dfy` | the masker's way through a text: the spots its loop visits, and what it writes between two of them |
| `MaskerRuns.dfy`, `MaskerCorrect.dfy` | the masker is right about every tree of that grammar in which it keeps its place |
| `MaskerPlace.dfy`, `MaskerWalks.dfy` | when it keeps its place, exactly: the walk over parentheses and the words case and esac |
| `MaskerCut.dfy`, `MaskerShape.dfy` | texts that stop too soon; all texts |
| `MaskerLimits.dfy`, `MaskerMisreads.dfy` | where the masker is silently wrong: it loses its place, or reads otherwise than a shell |
| `GrepOptions.dfy`, `WorkflowSteps.dfy` | `leaves_early` and `run_steps` |
| `Pipes.dfy`, `PipesLive.dfy` | `readers`, the line a finding names, and that it is of live code |
| `Watch.dfy`, `WatchProofs.dfy` | `FileWatcher.Wait`, `checkPath`, the trust window, the deadline |
| `WatchReads.dfy`, `WatchCache.dfy`, `WatchAlways.dfy` | the cache: what a wait with it amounts to in every world, and when its promises hold for every library and clock |
| `WatchEarly.dfy`, `WatchCounts.dfy` | what the verdict of a wait says of the logs, in every world and in a calm one; the refused count |
| `Redact.dfy` | `redactFinding` and substring occurrences around replacements |
| `Blocks.dfy` | the two wire forms of a message, over JSON values |
| `Scenario.dfy` | `validate` and the kind of a step |
| `Runner.dfy`, `RunnerProofs.dfy` | `runStep`, `RunWithIdentity`, the probes, and what a verdict means |
| `Headers.dfy`, `RunnerReplies.dfy`, `RunnerFindings.dfy` | header names; the verdict and the requests from the replies as they came; what the findings tell |
| `EndToEnd.dfy`, `EndToEndRun.dfy` | the rehearsal and the file watcher together; a run that ends well |
| `Cli.dfy`, `CliProofs.dfy` | the run command: checks up front, promotion, summary, exit code |
| `Args.dfy` | `parseArgsAnyOrder` over Go's flag parser |

Code that changes things in place is imperative here too (`Masker.Mask`, `Watch.FileWatcher.WaitFor`,
`Redact.FindingRef.Redact`, `Blocks.MessageRef.UnmarshalJSON`, `Scenario.ScenarioRef.Validate`, `Runner.RunStep`,
`Runner.RunWithIdentity`, `Cli.Report`, `Args.ParseArgsAnyOrder`, `WorkflowSteps.RunSteps`). Each method is tied to a function of
its input, and the promises of the code are proved about that function.

The outside world is an oracle: the replies to each attempt, what the watcher says, what each read of each poll returns,
and what the clocks say are arbitrary functions, so a theorem holds for every sequence of replies and every run.

## Where the code does not do what it is said to do

Each of these is a theorem, with the input on which a promise fails, and with the condition under which it is kept: an if and
only if, except for some ways of reading otherwise than a shell, where what the masker makes of them is stated.

- In a quote or in a parameter, the masker can take the `)` that ends a case pattern for the end of a parenthesised group,
  and then the group's own `)` for the end of the substitution around it; the live rest of that substitution is then
  overwritten and no loss is reported: `MaskerLimits.ArmInGroupIsLost`. A substitution there keeps the masker in its place
  if and only if no parenthesis of its own before the last meets depth and case count zero, and the last one does:
  `MaskerWalks.SubstKeepsPlaceIff`. For a whole tree `MaskerPlace.PlaceIsKept` gives the same both ways, and wherever the
  place is kept the output is right: `MaskerCorrect.MaskIsRight`. Outside substitutions nothing is asked
  (`MaskerLimits.ArmInSubshellIsRight`). The output alone has no such condition on the tree: two losses can undo each
  other (`MaskerLimits.LossesCancel`).
- A text that stops between two fragments, inside a parenthesis, a case statement or the line of a here-document, in a
  comment, in `$'...'` or `$((...))`, in a here-document's body, after `<<` before any quote, or after a lone backslash
  passes as whole at the top level. A cut is noticed if and only if a single quote is open, or the masker is left in a quote,
  a parameter or a substitution: `MaskerCut.CutIsRight`, and `MaskerCut.SealedCutIsNoticed` in terms of the cut alone.
- The docstring of `mask` promises that newlines are kept. A continued line of live code loses its own: every newline of a text
  is kept if and only if the loop meets no such line (`MaskerShape.NewlinesKeptIff`).
- The masker can take only the beginning of a here-document's name, and then waits for a line that is not a shell's: all the
  rest of the script is overwritten, and no loss is reported (`MaskerMisreads.LongNameIsLost`). It takes the name a shell
  takes if and only if a blank, an operator or the end comes after what it takes (`MaskerMisreads.NameIsShellsIff`).
- Other ways in which it reads otherwise than a shell, and says nothing: a shift by a variable in an arithmetic command, with
  the lines after it (`MaskerMisreads.ShiftIsLost`); backquotes in quotes and substitutions in arithmetic, which are
  overwritten though they are code (`MaskerMisreads.BackquotesAreBlanked`, `MaskerMisreads.ArithmeticIsBlanked`); a `#` after
  an escaped blank or operator, and after a closing parenthesis (`MaskerMisreads.HashAfterEscape`,
  `MaskerMisreads.HashAfterParen`); and a line of an unquoted here-document that is continued on the one that would end it
  (`MaskerMisreads.JoinedLineEnds`). `ShellTrees.ReadsAll` leaves these trees out.
- The comment on `Wait` promises one verification per distinct size observed. A path is verified twice at one size if and
  only if its size leaves a value and comes back to it during the wait: `WatchCache.SizesAreVerifiedOnceIff`, with
  `WatchEarly.ShrinkingVerifiesTwice` for the input.
- The cache takes a log that is as long as when it was last read for the one it verified. So a log rewritten at its length
  can hide an event (`WatchEarly.RewriteHidesFromCache`) or a broken chain (`WatchEarly.BrokenRewriteIsPassedOver`), where
  the comment on `Wait` says a break fails the wait. Whatever the library and the wall clock, the cache is not seen if and
  only if every log read to be as long as before is the same as before (`WatchAlways.CacheIsInvisibleIff`), and nothing
  broken is passed over if and only if the content of every log read was verified, then or before
  (`WatchAlways.NothingBrokenIsIgnoredIff`).
- The same comment calls the refused count that of every path's last poll. A log that vanishes before the last poll keeps
  its earlier count (`WatchCounts.VanishedLogIsCounted`). Whatever the library and the wall clock, the two are equal if and
  only if each content is that of as many paths in the last poll as of paths as the cache knew them last
  (`WatchCounts.CountIsLastPollsIff`); for one wait, `WatchEarly.VanishedLogsStillCount` says which logs make the difference.
- Redaction of a text is complete for every text exactly when the key neither begins nor ends with `*` and does not hold `***`:
  `Redact.CompleteIffSafe`. The comment on `redactFinding` says every text a Finding carries is redacted. The code redacts
  Detail, Expect, Got and GotHeaders, so a key that is written in an expected header stays
  (`Redact.ExpectedHeaderKeepsKey`). After redaction no text of a Finding holds a safe key if and only if none of the names,
  the event, the kind and the expected headers did before: `Redact.SecretlessIff`, and for the results of a run
  `RunnerFindings.FindingIsSecretlessIff` and `RunnerFindings.ResultIsSecretless`.
- A `--` ends the flags only up to the next positional, after which flags are read again:
  `Args.DoubleDashShieldsOne` says exactly when it shields everything after it.

## Model

| member | source | states |
|---|---|---|
| Masker.Step | scripts/no-reader-leaves-a-pipe-early.sh:102-241 | on any text, a turn of the loop moves strictly forward, pushes or pops at most one frame, never pops the bottom one, and writes spaces only over a backslash-newline in code |
| Masker.Mask | scripts/no-reader-leaves-a-pipe-early.sh:72-244 | the loop over the mutable buffer and the frame stack, in bounds and terminating on every text, computes the specification the theorems below are about, with its reason |
| Masker.BlankOut | scripts/no-reader-leaves-a-pipe-early.sh:82-85 | exactly the characters of the range that are inside the text and are not newlines are overwritten, and nothing else |
| Masker.ScanArithmetic | scripts/no-reader-leaves-a-pipe-early.sh:87-97 | finds the end of an arithmetic expansion as the depth-counting specification defines it |
| Masker.ScanAnsi | scripts/no-reader-leaves-a-pipe-early.sh:131-136 | finds the closing quote of a $'...' text past every escaped character |
| Masker.BlankBody | scripts/no-reader-leaves-a-pipe-early.sh:110-117 | overwrites one here-document up to and with its delimiter line, keeps its newlines, and touches nothing before or after it |
| Masker.EndLine | scripts/no-reader-leaves-a-pipe-early.sh:107-119 | at the end of a line overwrites the bodies of all the here-documents the line named, in order, and stops where the last one ends |
| Masker.DollarTurn | scripts/no-reader-leaves-a-pipe-early.sh:147-157 | what opens with a dollar sign is read alike in code, quotes and parameters: arithmetic is skipped, a substitution stays live, a parameter is overwritten |
| Masker.CodeTurn | scripts/no-reader-leaves-a-pipe-early.sh:106-187 | the code branch leaves the buffer masked up to where it goes on, in the frames and waiting here-documents of the specification, or stops at an unclosed single quote with the rest untouched |
| Masker.QuoteTurn | scripts/no-reader-leaves-a-pipe-early.sh:188-209 | the same for the branch inside double quotes, which can never lose its place |
| Masker.ParamTurn | scripts/no-reader-leaves-a-pipe-early.sh:210-241 | the same for the branch inside a parameter expansion |
| MaskerRuns.PlainRun | scripts/no-reader-leaves-a-pipe-early.sh:178-187 | a stretch of code that opens nothing, alone or with what follows it, is kept whole, word by word, and changes no state |
| MaskerRuns.QuotedRun | scripts/no-reader-leaves-a-pipe-early.sh:207-209 | a stretch of quoted or parameter text that opens nothing is overwritten whole and changes no state |
| MaskerRuns.SingleRun | scripts/no-reader-leaves-a-pipe-early.sh:137-142 | a single-quoted text is overwritten with its quotes, in code and in an unquoted parameter, whatever it holds |
| MaskerRuns.AnsiRun | scripts/no-reader-leaves-a-pipe-early.sh:131-136 | a $'...' text is overwritten to its own closing quote, escaped quotes included |
| MaskerRuns.ArithRun | scripts/no-reader-leaves-a-pipe-early.sh:147-150 | arithmetic with balanced parentheses is overwritten whole in every frame |
| MaskerRuns.CommentRun | scripts/no-reader-leaves-a-pipe-early.sh:126-130 | a comment, at the start of the text or after any character of the code's list, is overwritten up to its newline, which stays, and quotes in it open nothing |
| MaskerRuns.OperatorRun | scripts/no-reader-leaves-a-pipe-early.sh:169-177 | a here-document operator is overwritten, and its delimiter, quoted either way or named with or without a backslash, after any blanks and with or without tab stripping, is what the loop goes on waiting for |
| MaskerRuns.HeredocIffNamed | scripts/no-reader-leaves-a-pipe-early.sh:247 | the masker finds a here-document, this name of it and this end, exactly where an operator stands that is written in one of the ways the pattern takes, with no newline in a quoted name and nothing left of a bare one |
| MaskerRuns.BodiesRun | scripts/no-reader-leaves-a-pipe-early.sh:107-119 | after the line, the bodies of all the here-documents it named, in order and each with its delimiter line, are overwritten and nothing waits any more, also when the last delimiter line ends the text |
| MaskerRuns.KeywordRun | scripts/no-reader-leaves-a-pipe-early.sh:178-185 | the words case and esac, at any word boundary, stay live and count one up and one down in the frame they stand in |
| MaskerCorrect.MasksSubst | scripts/no-reader-leaves-a-pipe-early.sh:151-166 | a substitution, in code, in quotes or in a parameter, keeps its own characters live, its body is masked as code, and its last parenthesis leaves the frames the walk over the tree says |
| MaskerCorrect.MasksCounted | scripts/no-reader-leaves-a-pipe-early.sh:158-185 | a parenthesis or a word case or esac, in any frame, stays live and changes the frames as the walk over the tree does |
| MaskerCorrect.Masks | scripts/no-reader-leaves-a-pipe-early.sh:99-244 | the same for any one fragment in any place, over any stack and with any here-documents waiting: what the loop writes over it, and the state it comes out in |
| MaskerCorrect.MaskIsRight | scripts/no-reader-leaves-a-pipe-early.sh:72-78 | for every script nested to any depth in which no parenthesis ends a substitution too soon into a quote or a parameter, masking its text gives exactly that text with quoted, parameter, comment and here-document characters overwritten and every substitution body live, and a loss exactly when the walk ends with a substitution open |
| MaskerPlace.PlaceIsKept | scripts/no-reader-leaves-a-pipe-early.sh:99-244 | for every script: the masker stands where the tree does at the end of every fragment, at any depth, if and only if the walk over parentheses, case and esac ends no substitution too soon |
| MaskerWalks.SealedIsRight | scripts/no-reader-leaves-a-pipe-early.sh:72-78 | for every script whose substitutions are ended by their own parentheses the output is right and no loss is reported, with case statements in subshells, functions and groups of its own code unrestricted |
| MaskerWalks.SubstIff | scripts/no-reader-leaves-a-pipe-early.sh:158-166 | in a quote or a parameter, a substitution is walked to its own end if and only if no parenthesis of its own before the last meets depth and case count zero, and the last one does |
| MaskerWalks.SubstKeepsPlaceIff | scripts/no-reader-leaves-a-pipe-early.sh:158-166 | the same of the masker itself, wherever it comes to such a substitution: it keeps its place through it under that condition and no other |
| MaskerCut.CutIsRight | scripts/no-reader-leaves-a-pipe-early.sh:137-142 | of a text that stops at any depth, between fragments or inside one, exactly what must be left of its whole fragments is, the broken one is overwritten or left as stated, and there is a reason exactly when a single quote is open or the masker is left in a quote, a parameter or a substitution |
| MaskerCut.SealedCutIsNoticed | scripts/no-reader-leaves-a-pipe-early.sh:242-244 | with the substitutions sealed, exactly when what is open outermost is a quote, a substitution or a parameter |
| MaskerCut.CutFrom | scripts/no-reader-leaves-a-pipe-early.sh:242-244 | the masked rest of such a text and its very reason, from any state of the loop: an unclosed single quote if one is open, otherwise that it ends inside something exactly when more than one frame is left |
| MaskerCut.DroppedCloseIsNoticed | scripts/no-reader-leaves-a-pipe-early.sh:74-77 | a sealed tree is believed, and the same tree without the closing character of its last quote, substitution or parameter is not; for a substitution that is not sealed, exactly when no parenthesis ended it before |
| MaskerShape.MaskShape | scripts/no-reader-leaves-a-pipe-early.sh:73-78 | for every text whatever: same length, spaces exactly where the loop meets a backslash-newline in live code, every other newline kept, every other character kept or an underscore, so offsets and lines mean what they meant |
| MaskerShape.NewlinesKeptIff | scripts/no-reader-leaves-a-pipe-early.sh:73 | every newline is kept if and only if the loop meets no backslash-newline in live code |
| MaskerLimits.ArmInGroupIsLost | scripts/no-reader-leaves-a-pipe-early.sh:161-166 | for every case pattern, arm and rest: in a group inside a quoted substitution the live rest of the substitution is overwritten and no loss is reported |
| MaskerLimits.ArmInSubshellIsRight | scripts/no-reader-leaves-a-pipe-early.sh:161-166 | the same statement in a group of the script's own code is kept whole |
| MaskerLimits.LossesCancel | scripts/no-reader-leaves-a-pipe-early.sh:161-166 | a family of trees in which the masker loses its place and the output is right all the same |
| MaskerMisreads.NameIsShellsIff | scripts/no-reader-leaves-a-pipe-early.sh:247 | wherever the pattern finds a here-document, the name and its end are those a shell reads if and only if a blank, an operator or the end of the text comes after it |
| MaskerMisreads.LongNameIsLost | scripts/no-reader-leaves-a-pipe-early.sh:169-174 | for every name that goes on otherwise, the shell reads the whole word, and everything after the line is overwritten with no loss reported |
| MaskerMisreads.ShiftIsLost | scripts/no-reader-leaves-a-pipe-early.sh:169-174 | for every shift by a variable in an arithmetic command, so are the lines after it |
| MaskerMisreads.BackquotesAreBlanked | scripts/no-reader-leaves-a-pipe-early.sh:188-209 | quoted text is overwritten whatever stands between backquotes in it |
| MaskerMisreads.ArithmeticIsBlanked | scripts/no-reader-leaves-a-pipe-early.sh:87-97 | balanced arithmetic is overwritten whatever is substituted in it |
| MaskerMisreads.HashAfterEscape | scripts/no-reader-leaves-a-pipe-early.sh:126-130 | after an escaped blank or operator a # begins a comment to the masker |
| MaskerMisreads.HashAfterParen | scripts/no-reader-leaves-a-pipe-early.sh:126-130 | after a closing parenthesis it does not, and what follows is kept as code |
| MaskerMisreads.CommentIsRight | scripts/no-reader-leaves-a-pipe-early.sh:126-130 | after plain code that ends in a blank, a tab, a newline, `;`, `&` or a pipe, or at the start of the text, a # and the rest of its line are overwritten and the code is kept, whatever the comment holds |
| MaskerMisreads.CommentInGroup | scripts/no-reader-leaves-a-pipe-early.sh:126-130 | and so they are after an opening parenthesis |
| MaskerMisreads.JoinedLineEnds | scripts/no-reader-leaves-a-pipe-early.sh:110-117 | a here-document ends at its delimiter line even when a shell joins that line to the one before |
| MaskerMisreads.RedirectIsRight | scripts/no-reader-leaves-a-pipe-early.sh:178-187 | code that ends in a redirection, and the quoted name after it, are a script and masked right |
| MaskerMisreads.LastLineIsRight | scripts/no-reader-leaves-a-pipe-early.sh:107-119 | a script that ends with a delimiter line and no newline is masked right |
| GrepOptions.LeavesEarly | scripts/no-reader-leaves-a-pipe-early.sh:262-276 | the loop returns the specification's option over the words of the arguments; what the words and the options are is said by the next three |
| GrepOptions.WordsIff | scripts/no-reader-leaves-a-pipe-early.sh:264 | the arguments are cut into exactly the words they are written with, none lost and none made up, whatever blanks stand before, between and after them |
| GrepOptions.LeavesIff | scripts/no-reader-leaves-a-pipe-early.sh:256-275 | a word makes grep leave exactly when it is one of the five long options, alone or with a value, or a cluster in which q, m, l or L stands before any of e, f, A, B, C, d and D |
| GrepOptions.ShortOption | scripts/no-reader-leaves-a-pipe-early.sh:270-275 | a cluster of short options is early exactly when an early letter stands in it before any letter that takes the rest of the word |
| GrepOptions.EarlyOptionIsFirst | scripts/no-reader-leaves-a-pipe-early.sh:262-276 | however the arguments are spaced, an option is reported exactly when one of their words makes grep leave, and it is the first such word, with no `--` before it |
| Pipes.Readers | scripts/no-reader-leaves-a-pipe-early.sh:279-286 | the loop finds the readers of the specification, in order |
| Pipes.ReadersAre | scripts/no-reader-leaves-a-pipe-early.sh:279-286 | a reader is found exactly for each match whose grep leaves early, where the match starts and with its own option |
| Pipes.ReadersAscend | scripts/no-reader-leaves-a-pipe-early.sh:279-286 | and in the order of the matches |
| Pipes.ReadersAtPipes | scripts/no-reader-leaves-a-pipe-early.sh:279-286 | the offset of every reader found is that of a pipe of the masked text |
| WorkflowSteps.RunSteps | scripts/no-reader-leaves-a-pipe-early.sh:344-362 | the generator, run to its end, yields the steps of the specification, and ends on every text |
| WorkflowSteps.KeyIff | scripts/no-reader-leaves-a-pipe-early.sh:349-353 | a line is a run: key, with this indent and this rest, exactly when it is written as blanks, perhaps a dash and a blank, the key, blanks and the rest |
| WorkflowSteps.StepsAre | scripts/no-reader-leaves-a-pipe-early.sh:349-362 | each step is a key and its script: after a pipe or > all the lines that are blank or deeper than the key, joined, and none after them; otherwise the rest of the key's line |
| WorkflowSteps.StepsInOrder | scripts/no-reader-leaves-a-pipe-early.sh:344-362 | the steps cover disjoint line ranges in increasing order |
| WorkflowSteps.StepsCover | scripts/no-reader-leaves-a-pipe-early.sh:344-362 | no run: key goes unread: each begins a step or stands in the block of one |
| Pipes.ScriptIsPiece | scripts/no-reader-leaves-a-pipe-early.sh:344-362 | the script of every step with a line of its own is one piece of the file, beginning and ending where its block's lines do, or at the end of the key's line |
| Pipes.StepFindingIsThere | scripts/no-reader-leaves-a-pipe-early.sh:386-393 | the line computed for any character of a step's script is the line of the file that this character is on, and a line of that step |
| Pipes.ReaderIsThere | scripts/no-reader-leaves-a-pipe-early.sh:386-396 | for any shell file or workflow, a finding points at a pipe of the unmasked script, that pipe stands in the file as far past the script's beginning, and the line named is the one it is on |
| PipesLive.ReaderIsLive | scripts/no-reader-leaves-a-pipe-early.sh:279-286 | for every script in which the masker keeps its place, a finding points at a pipe of plain code, outside quotes, parameters, comments and here-documents |
| Watch.CheckPath | internal/watch/watch.go:186-248 | the check with its cache, its window and its loop over events computes the specification: the first trusted event, or the count of those refused on time, or the error |
| Watch.SumOf | internal/watch/watch.go:155-158 | the sum over the map is the same in whatever order the map is ranged over |
| Watch.FileWatcher.WaitFor | internal/watch/watch.go:133-163 | the polling loop terminates and returns the verdict, polls, verifications and reads of the specification, in every world whose sleeps take at least the poll interval |
| WatchProofs.WindowIsWholeSeconds | internal/watch/watch.go:223-241 | a timestamp is accepted exactly when its second lies from the request's own to the one after this poll's |
| WatchProofs.WindowIsSound | internal/watch/watch.go:73-95 | an accepted timestamp is less than a second before the request and less than two seconds ahead of the poll |
| WatchProofs.JudgeFinds | internal/watch/watch.go:231-246 | one look at the events finds the first that is of the run, source and kind and is dated in the window, and counts those before it that only their time refused |
| WatchProofs.ReactionIsAccepted | internal/watch/watch.go:216-230 | a reaction between the request and the poll is never refused, truncated to any precision that divides a second, or stamped up to a second ahead |
| WatchProofs.WaitStops | internal/watch/watch.go:133-163 | at least one poll and at most the timeout's poll intervals, rounded up, plus one |
| WatchCache.CacheIsMemory | internal/watch/watch.go:165-171 | in every world, the wait with its cache is the plain wait, which re-reads, re-verifies and re-scans everything every time, over logs that are taken to be unchanged while their length is |
| WatchCache.SizesAreVerifiedOnceIff | internal/watch/watch.go:121-124 | no path is verified twice at one size if and only if no size of a path is left and comes back in the reads of the wait |
| WatchCache.EachSizeIsVerifiedOnce | internal/watch/watch.go:121-132 | so over append-only logs no path's chain is verified twice at one size |
| WatchCache.AppendOnlyIsTold | internal/watch/watch.go:121-132 | append-only logs are told by their size, and no size of theirs comes back |
| WatchAlways.CacheIsInvisible | internal/watch/watch.go:165-171 | whenever every log read to be as long as the last time is the same, the wait with its cache returns what the plain wait does, after the same polls and reads |
| WatchAlways.CacheIsInvisibleIff | internal/watch/watch.go:192-193 | for every library and wall clock the cache is not seen, if and only if the reads of the longest wait on these files are such |
| WatchAlways.NothingBrokenIsIgnored | internal/watch/watch.go:96-119 | when the content of every read was verified, then or before, each read but the failing one was intact or of a log not there yet |
| WatchAlways.NothingBrokenIsIgnoredIff | internal/watch/watch.go:96-119 | for every library and wall clock nothing broken is passed over, if and only if the reads of the longest wait on these files are such |
| WatchAlways.ToldIsVetted | internal/watch/watch.go:96-119 | reads that are told by their size are all verified, then or before, so nothing broken among them is passed over |
| WatchAlways.VettedIsClean | internal/watch/watch.go:96-112 | in every world, whatever was verified and did not end the wait was intact and could be scanned |
| WatchAlways.ErrorIsOfLastRead | internal/watch/watch.go:114-119 | in every world, a wait that fails names what is wrong with the last read it made |
| WatchEarly.MatchIsTrustworthy | internal/watch/watch.go:67-112 | in every world, rewritten logs included: a returned event was read during the wait in an intact chain of a watched path, carries the right fields, and was in the window of the last poll, when the log was as long |
| WatchEarly.RewriteHidesFromCache | internal/watch/watch.go:192-193 | a log rewritten at the same length times out where the plain wait finds its event |
| WatchEarly.BrokenRewriteIsPassedOver | internal/watch/watch.go:96-106 | a log rewritten at the same length into a broken chain times out where the plain wait names the break |
| WatchEarly.ShrinkingVerifiesTwice | internal/watch/watch.go:121-124 | a log that shrinks and grows back is verified twice at one size |
| WatchEarly.EarlyPollsChangeNothing | internal/watch/watch.go:133-163 | in a calm world a wait finds a match exactly when one look at every path in the last poll the deadline allows would, and otherwise it times out |
| WatchEarly.TimeoutCountsCandidates | internal/watch/watch.go:61-65 | in every world, on timeout the refused count is the number of field-matching lines with a parseable time in each distinct path, as the cache knew it last; as it was last read, when sizes tell |
| WatchEarly.VanishedLogsStillCount | internal/watch/watch.go:61-65 | in every world, it is never below that of the last poll as the cache took it, and equal to it exactly when no log that vanished before it held such a line; when sizes tell, that is the last poll as it was read |
| WatchCounts.CountIsLastPollsIff | internal/watch/watch.go:61-65 | for every library and wall clock the count is that of the last poll, if and only if each content is that of as many paths in it as of paths as the cache knew them last |
| WatchCounts.VanishedLogIsCounted | internal/watch/watch.go:61-65 | a log with a refused line that vanishes before the last poll is counted where that poll has nothing |
| WatchEarly.CalmCountsLastPoll | internal/watch/watch.go:61-65 | so in a calm world it is that of the last poll |
| WatchEarly.HitLasts | internal/watch/watch.go:223-246 | in a calm world what one check finds, every later check of that path finds too |
| Redact.NoneIsLeft | internal/runner/runner.go:740-746 | replacing a key leaves no occurrence of it, and brings about none of any other safe key that was absent |
| Redact.CompleteIffSafe | internal/runner/runner.go:730-751 | redaction of a key is complete for every text if and only if the key neither begins nor ends with a star and holds no mark |
| Redact.StarlessIsSafe | internal/runner/runner.go:727-728 | every key without a star meets that condition |
| Redact.AbsentChangesNothing | internal/runner/runner.go:732-734 | a key that does not occur changes nothing |
| Redact.FindingRef.Redact | internal/runner/runner.go:735-751 | the record, rewritten in place, is the old one with each key redacted in turn, whatever the order the headers are ranged over |
| Redact.RedactHeaders | internal/runner/runner.go:743-749 | every header's redacted name is there and every entry is some header redacted, for every order of the map and colliding names |
| Redact.RedactionIsComplete | internal/runner/runner.go:730-734 | after any list of keys no safe one occurs in Detail, Expect, Got, or any header's name or value, so a later key never brings an earlier one back |
| Redact.AbsentKeysChangeNothing | internal/runner/runner.go:735-739 | keys that are empty or absent leave the Finding as it was |
| Redact.RedactionIsIdempotent | internal/runner/runner.go:735-751 | redacting twice equals redacting once |
| Redact.RedactionKeepsTheRest | internal/runner/runner.go:730-734 | every field but Detail, Expect, Got and GotHeaders stays as it was |
| Redact.SecretlessIff | internal/runner/runner.go:730-734 | after any list of keys no text of the Finding holds a safe one of them, if and only if none of the texts that redaction leaves alone did before |
| Redact.ExpectedHeaderKeepsKey | internal/runner/runner.go:730-734 | a key written in an expected header is there after redaction |
| Blocks.MessageRef.UnmarshalJSON | internal/scenario/blocks.go:30-46 | the receiver is overwritten with the decoded message, is left alone when the outer value does not decode, and keeps what was read when the content does not |
| Blocks.RoundTrip | internal/scenario/blocks.go:16-46 | reading back what was written gives the message with foreign block fields erased and a nil tool input made empty, and that is written the same again |
| Blocks.WireIff | internal/scenario/blocks.go:16-99 | a message is written as exactly one value: the keys of each kind of block and no others, input always with a tool_use, is_error only when set |
| Blocks.UnmarshalReads | internal/scenario/blocks.go:30-46 | whatever is read, each field of the message and of each block is what stands at its own key, or nothing, and the old value stays only where the outer value does not decode |
| Blocks.PlainIsUnchanged | internal/scenario/blocks.go:10-12 | a plain-string message comes back unchanged |
| Blocks.SameWireIffSameNormal | internal/scenario/blocks.go:73-99 | two messages have the same wire form exactly when they differ only in what the wire does not carry |
| Blocks.AcceptedIffShape | internal/scenario/blocks.go:29-46 | a JSON value is accepted exactly when it has the declared wire shape, and then nothing of the receiver's old value is left |
| Blocks.RewriteSettles | internal/scenario/blocks.go:16-46 | reading and writing any accepted value settles after one pass |
| Scenario.CountKind | internal/scenario/scenario.go:208-227 | counting what is set gives the kind exactly when one of the three is set |
| Scenario.ScenarioRef.Validate | internal/scenario/scenario.go:416-461 | the error and the steps left in place, those before, at and after the failing one, are those of the specification; the next rows say what they are |
| Scenario.ScenarioRef.ValidateStep | internal/scenario/scenario.go:424-458 | a step is filled in as far as its first error, no further |
| Scenario.KindAgrees | internal/scenario/scenario.go:466-565 | the ordered checks of the three kinds pass exactly the steps that meet the declared predicate of one kind, and name exactly the declared fault of the others |
| Scenario.AcceptedIffGood | internal/scenario/scenario.go:412-461 | validation accepts exactly the scenarios that meet the declared predicate; of each step a repeat of at least 1, a deadline within it and a positive window are kept, any other repeat is 1, any other deadline the last repeat, any other window ten seconds, and nothing else is touched |
| Scenario.RefusedIffFault | internal/scenario/scenario.go:416-565 | a scenario is refused with an error exactly when that is what is first wrong with it: with the name, the list, or the first bad step, whose faults are declared one by one |
| Scenario.RefusedAtFirstBad | internal/scenario/scenario.go:423-457 | the steps before the bad one are left filled in, that one as far as it was checked, and those after it untouched |
| Scenario.ValidateIsIdempotent | internal/scenario/scenario.go:416-461 | validating an accepted scenario again changes nothing |
| Scenario.AcceptedIsTrustworthy | internal/scenario/scenario.go:412-415 | after acceptance Repeat is at least 1, WithinRepeats lies from 1 to Repeat, exactly one kind is set and present, an event window is positive, and no mcp step waits for an event |
| Runner.RunStep | internal/runner/runner.go:306-417 | the attempt loop returns the declared outcome of the step for every reply sequence, and sends exactly the attempts up to the one that stops it |
| Runner.AwaitEvent | internal/runner/runner.go:371-407 | a match in time comes to nothing, a finding or a watcher error according to what the watcher says |
| Runner.Collect | internal/runner/runner.go:211-215 | a finding joins the list only redacted |
| Runner.RunWithIdentity | internal/runner/runner.go:168-237 | the run returns the declared verdict with its findings redacted in the right list, and its requests are the declared trace |
| RunnerProofs.NoFindingIffHolds | internal/runner/runner.go:292-300 | a step has no finding exactly when its first matching attempt is within its deadline, every attempt before it was answered normally, and its event was seen |
| RunnerProofs.VerdictIsRight | internal/runner/runner.go:223-236 | for every reply sequence: passed exactly when every step's guardrail held; skipped exactly when a feature is required, some guardrail missed, nothing operational failed and no attempt signalled; failed otherwise |
| RunnerProofs.FindingsFollowVerdict | internal/runner/runner.go:223-236 | Findings is nonempty exactly for failed, SkippedFindings exactly for skipped |
| RunnerProofs.NoSecretInResult | internal/runner/runner.go:211-215 | no safe client or API key occurs in any text a reply could have put into a result |
| RunnerProofs.RefusalEndsTheRun | internal/runner/runner.go:216-220 | a refused credential fails the run even when the reply matched, and its finding, redacted, is the last of the list |
| RunnerProofs.RefusalIsLastSent | internal/runner/runner.go:216-220 | its request is the last of the trace, and no step before it was refused |
| RunnerProofs.RefusalStops | internal/runner/runner.go:709-725 | a 401, or a 403 naming identity_mismatch, ends its step at that attempt as refused, for messages and tool_check alike |
| RunnerProofs.CallsAreRequests | internal/runner/runner.go:196 | the calls a run reports are the requests it sent |
| RunnerProofs.MatchSignals | internal/runner/runner.go:484-490 | an expectation that names the signal header in any case, or an error code from -32010 to -32001, is never matched without its signal |
| RunnerProofs.OwnSignalIsNeverSkipped | internal/runner/runner.go:370-411 | so a late match or a missing event of such a step makes the run failed, never skipped |
| RunnerProofs.ClampingIsNoOp | internal/runner/runner.go:309-318 | on a validated step the run's own clamping changes nothing, and the probe of its kind finds its request there |
| RunnerReplies.ProbeReads | internal/runner/runner.go:471-627 | of any reply, the probes say that it is an answer, that it announces the guardrail and that it is the expected one exactly when it is by the declared reading: header names in any case, governed, and the codes from -32010 to -32001 |
| RunnerReplies.HoldsByReplies | internal/runner/runner.go:292-300 | a step holds exactly when, in the replies themselves, the expected one came within the deadline after nothing but other answers, and its event was seen |
| RunnerReplies.VerdictByReplies | internal/runner/runner.go:223-236 | the verdict of every run in terms of its replies alone: passed, skipped and failed, each exactly when |
| RunnerReplies.ShownAndMissedIsAGap | internal/runner/runner.go:275-279 | a guardrail that announced itself on any attempt and did not hold makes the run failed, for every kind of step |
| RunnerReplies.ReservedCodeIsAGap | internal/runner/runner.go:559-560 | a run in which an mcp step got an error code from -32010 to -32001 on an attempt it made, and not what it expects, is failed |
| RunnerReplies.OffIsSkippedWhereNamed | internal/runner/runner.go:499-505 | a run whose every attempt is answered without the guardrail announcing itself is skipped when the scenario names the feature and failed when it names none |
| RunnerReplies.SentIff | internal/runner/runner.go:330-417 | the requests of a run are exactly the attempts whose earlier ones were answered otherwise than expected, of the steps before which no credential was refused |
| RunnerReplies.SentInOrder | internal/runner/runner.go:192-220 | and they are sent in the order of steps and attempts, each once |
| RunnerFindings.FindingsTellTruth | internal/runner/runner.go:419-469 | every finding of a result is, before redaction and in every field, true of the last attempt of a step that was run and missed: the sentence of its detail, what was expected and asked, what came back, the kind, and the event only where that is what was missing |
| RunnerFindings.MissesAreFound | internal/runner/runner.go:211-215 | every step that was run and missed has such a finding in the result |
| RunnerFindings.FindingIsSecretlessIff | internal/runner/runner.go:211-215 | a finding of a result holds a safe client or API key exactly when one of the texts it has from the scenario does |
| RunnerFindings.ResultIsSecretless | internal/runner/runner.go:211-215 | when no text of the scenario holds it, no text of the result does, whatever the gateway echoes |
| EndToEnd.PassedMeansEvidenced | internal/runner/runner.go:371-407 | when the watcher is the one that polls files, a passed run has for every declared event a record in a watched file, whatever was done to the file meanwhile: from an intact chain, under the run's id, no earlier than the second before its request, no later than two seconds after the poll that found it |
| EndToEnd.StrictOKMeansEvidenced | cmd/mockryx/main.go:253-294 | exit OK under --fail-on-skip means the same for every declared event of every scenario |
| EndToEndRun.HeldEndsOK | cmd/mockryx/main.go:253-294 | with --fail-on-skip and an output that works, every run in which all guardrails held can end with OK |
| EndToEndRun.OneRunEndsOK | cmd/mockryx/main.go:178-294 | a run with a declared event that a watched file records, which may start and ends with OK |
| EndToEnd.EventSeenIffThereAtLast | internal/runner/runner.go:382-407 | in a calm world an event counts as seen exactly when one look at every file, in the last poll its window allows, finds it |
| EndToEnd.RefusedLinesAreCounted | internal/runner/runner.go:392-400 | the lines a missed event is reported to have been refused on time are those of the run, source and kind that can be dated, in each watched file as the wait knew it last |
| Cli.First | cmd/mockryx/main.go:428-450 | both searches return the first offender in order, or none when there is none |
| Cli.RunRun | cmd/mockryx/main.go:178-295 | the run starts exactly when its upfront checks pass and its event log opens; else its error names the first offender, in order, of the first check that fails; once started it runs every scenario in order and finishes with consistent totals, events, summary and error |
| Cli.Report.TotalFindings | internal/report/report.go:30-36 | the loop counts the findings of all results |
| Cli.Report.CheckNothingExercised | internal/report/report.go:42-49 | true exactly when every result was skipped |
| Cli.Report.Promote | cmd/mockryx/main.go:265-276 | the report, changed in place, is the old one with each skipped result promoted, and the count is that of the skipped |
| Cli.Finish | cmd/mockryx/main.go:265-294 | what is reported, saved and returned is about the promoted report, while the findings emitted are those of before; only the human format has a summary, and what cannot be printed or saved is an error |
| CliProofs.ResultsAreOfScenarios | cmd/mockryx/main.go:228-252 | each result bears its scenario's name, and is passed or skipped exactly when the replies to that scenario's own steps, and what it requires, make it so |
| CliProofs.PromotionConserves | cmd/mockryx/main.go:253-264 | promotion keeps every status, empties every skipped list, and moves each finding without losing or making one |
| CliProofs.TotalsFollowVerdicts | cmd/mockryx/main.go:278-294 | a total of nothing means no scenario failed; after promotion, that every one passed |
| CliProofs.ExitFollowsVerdicts | cmd/mockryx/main.go:75-87 | over all runs that start: the usage code exactly when the report cannot be printed or saved; otherwise OK exactly when no scenario failed, or with --fail-on-skip when every one passed |
| CliProofs.StrictOKMeansEverythingHeld | cmd/mockryx/main.go:253-294 | with --fail-on-skip, OK exactly when every step of every scenario held, in terms of the replies |
| CliProofs.EventsAddUp | cmd/mockryx/main.go:262-279 | the end event counts the findings emitted plus those promoted |
| CliProofs.SummaryIsTrue | internal/report/report.go:68-83 | the human report ends with each of its four sentences exactly when it is true of the run: how many gaps there are, that no scenario ran, that all were skipped, or that what was exercised held |
| CliProofs.ErrorIsTrue | cmd/mockryx/main.go:253-294 | the error of a run counts the gaps, the scenarios and the skipped ones as they are in its results, and the events count the findings |
| CliProofs.StartedRunsAreEquipped | cmd/mockryx/main.go:183-207 | past the upfront checks no step reaches the missing-broker or missing-watcher branches |
| CliProofs.MayStartIff | cmd/mockryx/main.go:178-213 | a run may start exactly when its event log opens, no step declares an event without a watcher, and no step is an mcp step without a broker that answers |
| CliProofs.StartsIffEachWould | cmd/mockryx/main.go:178-207 | so exactly when each of its scenarios might alone, and the event log opens |
| CliProofs.RefusalIsUnique | cmd/mockryx/main.go:178-213 | a refused run has one error it can be refused with, which has the usage code, and a run that may start has none |
| CliProofs.RefusalIsTrue | cmd/mockryx/main.go:178-213 | that error is true, and names the first step, in order, of which it is |
| Args.ParseArgsAnyOrder | cmd/mockryx/main.go:350-363 | the loop of restarts, with the argument list shrinking each round, equals one pass over the arguments, errors included; what that pass accepts and refuses is said by the next rows |
| Args.ParseInPass | cmd/mockryx/main.go:340-349 | one call of Parse is the part of that pass before its next positional |
| Args.DoneIffItems | cmd/mockryx/main.go:340-363 | arguments are read, with these settings and positionals, exactly when they are a row of complete flags in any of their forms, positionals, and arguments shielded by a double dash, with these settings and positionals in order: nothing written is lost or made up |
| Args.RefusedIffBreaks | cmd/mockryx/main.go:350-363 | they are refused with an error exactly when after such a row comes what cannot be read for that reason: a flag that is not defined, is badly written, lacks its value or rejects it, or a call for help |
| Args.AnyOrderIsRead | cmd/mockryx/main.go:340-349 | any interleaving of complete flags, in any of their written forms, and positionals is read as the settings in their order and the positionals in theirs |
| Args.OrderDoesNotMatter | cmd/mockryx/main.go:345-346 | two interleavings of the same flags and positionals come to the same |
| Args.DoubleDashShieldsOne | cmd/mockryx/main.go:350-363 | a double dash makes all the rest positional if and only if nothing past the first argument after it looks like a flag |

## Left out

- Sending: HTTP, URL building, request encoding, `ProbeBroker` and the real clock and sleep are oracles; the requests a run
  sends are modelled as (step, attempt) pairs, without their bytes.
- Header names are canonical lower-case strings, as section 5.1 of RFC 9110 lets them be; several values of one header are not modelled.
- `event.VerifyChain`, `event.Scan` and the timestamp parser belong to a library that is not part of this model: they are
  arbitrary functions of the bytes, and a chain that does not verify is a value of theirs.
- A run sees its watcher as an oracle for seen, not seen or failed; `EndToEnd.dfy` ties that oracle to the wait, with the
  clocks and files of each wait still arbitrary.
- WatchEarly.EarlyPollsChangeNothing: asks for a calm world (append-only logs that stay, intact chains, scanning that only
  adds events, a wall clock that does not go back); any of these failing can make an earlier poll differ from the last one.
- The masker's characters are ASCII as to what is a letter or a digit; `isalpha` and the word pattern disagree beyond it.
- MaskerCorrect.MaskIsRight: its grammar has no `<<` that names nothing, backquotes only in pairs within one stretch of plain
  code, and no here-document that is named in a substitution and filled outside it, or the other way round; nor the trees of
  `MaskerMisreads`. Shells differ in what they make of some of these; `MaskerShape.MaskShape` covers every text.
- MaskerWalks.SubstKeepsPlaceIff: is about a quote or a parameter around the substitution, since in code a substitution
  that ends too soon leaves the masker in code all the same, and `MaskerCorrect.MaskIsRight` covers it.
- The READER and PIPE regular expressions: a match is anything that starts at a `|` of the masked text.
- Listing the tracked files, the control section and the self-check lines of the script.
- Cost sums (`BudgetBurnedUSD`), which add any parsed float, negative ones included.
- The words of a Finding's detail: which sentence it is, and what it is about, is modelled, its text is an oracle.
- JSON and YAML text, case-insensitive JSON keys, and `UnmarshalYAML`: the wire form is modelled over JSON values, with numbers as reals.
- An event expectation shared between steps by pointer: each step holds its own.
- Report layout, `runReport`, `resolveAPIKey`, `resolveClientKey`, `internal/config`, `internal/events` and `internal/providerstub`:
  one branch settles most of what they promise, or they wrap files and sockets.
- Wrap-around of Go's 64-bit counters, sizes and durations.
