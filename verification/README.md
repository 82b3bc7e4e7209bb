# Verified models of rommsync

rommsync keeps a console's saves and roms in step with a RomM server, on a card that can lose power at any
moment. These Dafny modules model its hardest parts and prove what each of them is for. `dafny verify
dfyconfig.toml` checks everything.

| modules | what they model | source |
|---|---|---|
| CallGraph, Tarjan, HeaviestCycle, StackBudget, StackWalks, StackWitness | the checker that bounds every thread's stack: strongly connected components, heaviest simple cycle, deepest chain over the condensation | scripts/stack-budget.py |
| JsonText, JsonGrammar, JsonParser, JsonStreaming, JsonWriter, JsonWitness | the JSON reader in its plain, streaming, keeping and skipping forms against RFC 8259 and RFC 3629, and the writers | core/src/json.cpp |
| AtomicFile, Restore | the crash-safe commit, and putting a save's backup back while a game may be writing | core/src/atomic_file.cpp, core/src/conflict_record.cpp |
| DownloadQueue, Drain, QueueFile | the download queue under two threads, the worker that drains it, and the file it is kept in | core/src/download.cpp |
| ListService, ListPage | cursors over lists fetched by a worker, and a page on the wire | core/src/list_service.cpp, core/src/ipc.cpp |
| Word32, Md5, Md5Answer | the streaming MD5 hasher against RFC 1321 | core/src/md5.cpp |
| ConflictsView | the conflicts screen as a state machine | core/src/overlay_conflicts_view.cpp |
| ConfigText, ConfigLines, ConfigMeaning, ConfigEdit, ConfigOutcome, ConfigWitness | the comment-preserving config.ini editor against the parser | core/src/config_write.cpp, core/src/config.cpp |

## How the world is modelled

- **The card** is a map from names to bytes whose every operation may refuse, and whose rename refuses an
  existing destination. It records every state it has been in: a statement about all of them is a statement
  about a power cut after any step. What happens inside one step (a torn write) shows as a refused append that
  left some of its bytes. Names are told apart letter by letter: a card that takes two spellings for one file is not
  part of this model.
- **Two threads** are interleaved locked steps. The other thread acts whenever a lock is about to be taken, and
  a game may write its save before every step of a restore and between any two chunks of a copy.
- **The server** answers anything, with descriptions of roms from a set that is a parameter (`offers`). A download
  may open, extend and rename the two scratch files it is given, at any time and as often as it likes; a body that
  is complete has been renamed from the one to the other.
- **Nothing gets in the way** is a parameter of each of these, so that what must succeed can be told from what may:
  a card or a queue file that is `obliging` refuses nothing it could do; a server that is `steady` answers every list
  request, with the rows or that they are too much for one answer; and a drain that is `calm` is not stopped, finds
  room on the card, is left alone by the other thread, and is sent what is `served` of each rom.
- **Digests** in the worker are two unknown functions of bytes; nothing is assumed of them.
- **How a config value is read** (numbers, words, URLs, folder lists) is a parameter of the config model: its
  theorems hold for every choice of readers. What is required of the built-in tables, and of values once they
  are normalised, is `ConfigEdit.Sensible`.
- Bounds declared in headers (`kMaxQueueEntries`, `kMaxPayloadBytes` and the like) are parameters, but for the
  nesting limit 16, the page and prefetch limits of the two screens' models, and the copy buffer.

## Where the code does not do what one might say of it

- The streaming JSON form takes any first byte that starts no JSON value for the `{`: `x}` is accepted
  (`JsonStreaming.AcceptsWhatParseRefuses`). `StreamingIsBraced` says exactly which texts it accepts.
- The keeping JSON form does not look for duplicate keys in what it skips, so it accepts texts the plain form
  refuses (`JsonWitness.KeepsWhatParseRefuses`); `JsonText.StrictObject` and `JsonParser.ParseEach` say exactly which.
- In the stack checker, two recursions that share a label overwrite each other in `other_levels`, and a heavy one
  can then go unreported (`StackWitness.HeavyGoesUnreported`). The levels are as they are reported exactly when no
  replaced one is heavy (`StackBudget.LevelsJudged`), and the worst is right when none is heavy on a chain with the
  parser (`StackBudget.ReplacedAreHarmless`); `StackBudget.BudgetIsDecidable` says what would have to be checked.
- The download worker puts its files under its destination's name with `.tmp`, `.tmp.part` and `.old` behind it, and
  does not look whether another rom is called that: `game` loses `game.tmp` (`Drain.GameLosesItsTemp`). Nor does it look
  whether a destination is another rom's: the built-in folders send arcade and fbneo to one place, and a rom of each by
  one name replace one another, both rows staying done (`Drain.FbneoReplacesArcade`); a folder `Game` with one `.gba` in
  it and a file `Game.gba` do the same. Roms that are `Drain.Apart` are never lost; `Drain.StagingLoses`,
  `MovingAsideLoses`, `FallingBackMisleads` and `SharingLoses` say when others are.
- A restore may put the new backup where the old one is, if that is one of the names a new one may take and the card
  shows it and a moment later does not: it then puts the save's own bytes back and reports `Restored`
  (`Restore.RestoresItself`). `Restore.Restore` says what holds of every other restore.
- A recursion may hold more than a level of stack for each level of nesting: a simple path through a component can cost
  more than any cycle of it (`StackWalks.PathOutweighsCycles`). `StackWalks.NestingBounds` says when it does not matter,
  and `StackWalks.SizedFits` the same of a recursion that a size rule bounds.
- A rom list that has five rows in a row each too large to be returned alone stops before them, however well the server
  answers: every fetch from there fails (`ListService.FetchRoms` says exactly when). Every other list is read to its end
  (`ListService.ReadAll`).
- A value written over an empty one whose comment is a single space away runs into that comment, which is then
  part of the value (`ConfigWitness.CommentRunsIn`). `ConfigText.RewrittenReads` says exactly when; the editor's
  read-back then refuses the edit unless the field reads as asked all the same. `ConfigOutcome.OneIsAccepted` says
  what else makes it fail.
- Choosing an emulator, or where to play, in an empty section of a platform that is on by default turns its built-in
  folders back on (`ConfigWitness.ChooseEmulator`). It is the one accepted value that changes another setting
  (`ConfigWitness.OneMeansSame`).

## Model

| member | source | states |
|---|---|---|
| Tarjan.StronglyConnected | scripts/stack-budget.py:429-470 | terminates on every graph and returns the components the roots reach: each exactly a class of mutually reachable functions, none twice, every cross-component call going from a later component to an earlier one |
| Tarjan.FollowCalls | scripts/stack-budget.py:442-456 | one visit of the work list: either enters the next unvisited callee or lowers the top's low-link over its visited ones, keeping the whole invariant |
| Tarjan.Leave | scripts/stack-budget.py:457-469 | a spent visit hands its low-link to its parent, or, being the root of its component, emits it, keeping the whole invariant |
| Tarjan.PopComponent | scripts/stack-budget.py:462-468 | popping down to the root takes exactly the stack from it upwards, in popped order |
| Tarjan.EnterKeeps | scripts/stack-budget.py:433-441 | entering an unvisited function keeps the invariant: stack sorted by index, low-links sound and complete, everything finished closed |
| Tarjan.EnterChildKeeps | scripts/stack-budget.py:446-450 | entering a callee from the top of the work list keeps it |
| Tarjan.SkipKeeps | scripts/stack-budget.py:451-454 | passing over a visited callee keeps it: the low-link is lowered exactly when the callee is still on the stack |
| Tarjan.CloseKeeps | scripts/stack-budget.py:457-461 | closing a function that is not a component root keeps it: whatever it reaches on the stack its parent reaches |
| Tarjan.EmitKeeps | scripts/stack-budget.py:462-469 | emitting a component keeps it |
| Tarjan.TakenIsComponent | scripts/stack-budget.py:462-468 | whatever is mutually reachable with the component root is exactly what is popped |
| Tarjan.TakenCallsStay | scripts/stack-budget.py:462-468 | no call leaves what is popped except to components emitted before |
| Tarjan.ComponentsOf | scripts/stack-budget.py:429-470 | a finished run has emitted exactly what the roots reach, callees first |
| HeaviestCycle.HeaviestCycle | scripts/stack-budget.py:473-497 | terminates and returns the largest frame sum over all simple cycles inside the members, and zero only when there is none heavier |
| HeaviestCycle.CyclesFrom | scripts/stack-budget.py:477-496 | the push-and-pop search from one member computes the exhaustive search it stands for, with path, seen set and running cost restored exactly |
| HeaviestCycle.ExploreFindsCycles | scripts/stack-budget.py:477-496 | every sum the search reports is that of a simple cycle inside the members |
| HeaviestCycle.ExploreMissesNothing | scripts/stack-budget.py:477-496 | every simple cycle from its least member is explored, and so at most what is reported |
| HeaviestCycle.Rotate | scripts/stack-budget.py:473-497 | a cycle read from another of its members is a cycle of the same sum |
| HeaviestCycle.LeastFirst | scripts/stack-budget.py:482-485 | every simple cycle can be read from its least member, which is the only place it is explored from |
| StackBudget.MeasureThread | scripts/stack-budget.py:551-647 | on every graph with non-negative frames: each problem there is is reported, once, and no other; what is reported is spent by a whole chain there is; and with no problem, and nothing heavy replaced in `other_levels` on a chain with the parser, no chain from a root spends more than the reported worst |
| StackBudget.KindOf | scripts/stack-budget.py:568-600 | a component is plain, bounded by size, bounded by nesting depth (parser or not) or unbounded by the rules in force: a size rule applies only if it matches the names of all the members, and the first that does gives the levels, each of the heaviest cycle |
| StackBudget.SizedLevelsIs | scripts/stack-budget.py:574-582 | the levels are those of the first size rule whose pattern all the names match, and there are none exactly when there is no such rule |
| StackBudget.BelowOf | scripts/stack-budget.py:605-617 | folding the callees' fronts keeps the dearest entry of every (level, parser) key and nothing else |
| StackBudget.LiftAll | scripts/stack-budget.py:618-624 | a component lifts every entry below it: keys raised to its level, costs by its own frame, the dearest kept when keys meet |
| StackBudget.LiftedIsFront | scripts/stack-budget.py:602-624 | keeping one best entry per key loses nothing: every descent is dominated by an entry of its key, and every entry is a real descent |
| StackBudget.FrontsOf | scripts/stack-budget.py:605-624 | every component's front covers every descent from it |
| StackBudget.Pick | scripts/stack-budget.py:626-637 | the deepest parsing and the deepest other chain over all roots' fronts |
| StackBudget.JudgeLevels | scripts/stack-budget.py:638-646 | problems are reported exactly for a missing parser recursion and for each filed level above the parser's, each once |
| StackBudget.CostAll | scripts/stack-budget.py:567-600 | every component gets its kind; one problem for each unbounded recursion and each parser reached by a thread that must not parse, and no other |
| StackBudget.UnboundedFrames | scripts/stack-budget.py:556-561 | one problem for each reachable frame no walk can bound, and no other |
| StackBudget.AcceptedLevels | scripts/stack-budget.py:638-646 | with the filed levels accepted, a recursion heavier than the parser's was replaced by a later one of its name |
| StackBudget.LevelsJudged | scripts/stack-budget.py:598-646 | no recursion is heavier than the parser's exactly when no filed level is and no replaced one is |
| StackBudget.ChainsJudged | scripts/stack-budget.py:598-646 | with the filed levels accepted, the parser is the heaviest on every chain it is on exactly when each replaced recursion is light or on no such chain |
| StackBudget.DistinctLabelsAreHarmless | scripts/stack-budget.py:598-600 | where no two functions that are reached share a label, nothing is replaced |
| StackBudget.BudgetIsDecidable | scripts/stack-budget.py:626-647 | whatever the levels, no chain spends more than what is reported exactly when no entry with the parser on it does, of what a root reaches |
| StackWitness.HeavyGoesUnreported | scripts/stack-budget.py:598-647 | three recursions, two of one label: whatever the depth, every report of that graph has no problem in it, and the chain through all three spends three times the worst it reports |
| StackBudget.NothingLost | scripts/stack-budget.py:602-647 | own frames plus (depth + 1) heaviest levels of any descent from a root stay within the larger of the two reported chains |
| StackBudget.PassesDescend | scripts/stack-budget.py:602-617 | the components a call stack passes, each counted once, are a descent of the condensation |
| StackBudget.PlainOnce | scripts/stack-budget.py:570-573 | a call stack holds each non-recursive function at most once |
| StackBudget.StackFits | scripts/stack-budget.py:340-341 | any stack of calls from a root takes no more than the larger of the two chains reported, given that what its recursions take is within their bounds |
| StackBudget.ReportedStackFits | scripts/stack-budget.py:340-341 | the same of any report without a problem, when what was replaced is harmless |
| StackWalks.TripsAndPath | scripts/stack-budget.py:474-497 | a stack of calls is a simple path with trips cut into it: what it takes in any components is no more than its trips there at their heaviest cycle, and what the path takes there |
| StackWalks.NestingBounds | scripts/stack-budget.py:340-341 | so the recursions bounded by nesting stay within (depth + 1) levels if the trips and the path do |
| StackWalks.SizedFits | scripts/stack-budget.py:574-583 | a recursion bounded by size takes no more of a stack than it is costed at, if the stack makes fewer trips round it than its levels and what the path takes there is no more than a trip |
| StackWalks.SizedIsReached | scripts/stack-budget.py:574-583 | and no less is enough: some stack that keeps to the levels takes all of that cost |
| StackWalks.SizesBound | scripts/stack-budget.py:574-583 | so all of them together stay within what they add to the chain |
| StackWalks.NestedStackFits | scripts/stack-budget.py:340-341 | the point of the tool: a stack of calls with no more trips than the nesting limit, and fewer round each recursion bounded by size than its levels, whose simple path takes no more than a trip, takes no more than is reported |
| StackWalks.PathOutweighsCycles | scripts/stack-budget.py:473-497 | three functions in a row: every cycle costs 2 at most, and a stack that makes no trip takes 3 |
| JsonParser.Parser.ParseValue | core/src/json.cpp:228-267 | reads exactly the value the grammar reads at that position, at that depth, or refuses; in the keeping form what is built is that value with unnamed members gone |
| JsonParser.Parser.ParseArray | core/src/json.cpp:269-303 | the array loop reads exactly the grammar's elements in order |
| JsonParser.Parser.ParseEach | core/src/json.cpp:305-361 | the streaming loop hands over exactly the elements of the array, in order, and leaves an empty one; if it refuses, it has handed over the start of what can be read |
| JsonParser.ReachableIsAll | core/src/json.cpp:305-361 | what can be read of an array that can be read is the whole of it |
| JsonParser.Parser.ParseObject | core/src/json.cpp:363-432 | the object loop builds exactly the wanted members in order and refuses a key twice among what it builds |
| JsonParser.Parser.ParseMember | core/src/json.cpp:386-420 | a member is built, streamed or skipped as its key says |
| JsonParser.Parser.SkipValue | core/src/json.cpp:446-511 | ends where reading the value would end, whenever reading it succeeds, and refuses exactly when it does |
| JsonParser.Parser.ParseString | core/src/json.cpp:514-578 | a string's bytes, escapes and surrogate pairs resolved; raw control characters and broken escapes refused |
| JsonParser.Parser.ParseUnicodeEscape | core/src/json.cpp:604-635 | a \u escape becomes the bytes of its scalar value; an unpaired surrogate is refused |
| JsonGrammar.Utf8IsDecoded | core/src/json.cpp:31-50 | the bytes written for a scalar value are the one sequence that the syntax of section 4 of RFC 3629 decodes to it: shortest form, continuation bytes, no surrogate |
| JsonGrammar.UnicodeIsRead | core/src/json.cpp:584-635 | an escape gives some bytes exactly when its four hexadecimal digits, in either case, are a scalar value and the bytes encode it, or it is a pair of surrogates and they encode the one character it stands for |
| JsonParser.EscapeParses | core/src/json.cpp:584-635 | a text of one escape parses to the bytes that encode what its digits name |
| JsonParser.PairParses | core/src/json.cpp:604-635 | a text of one surrogate pair parses to the bytes that encode the character it stands for |
| JsonParser.Parser.ParseNumber | core/src/json.cpp:637-692 | the number grammar, and the value of an integer that fits 64 bits |
| JsonGrammar.NumberIsRead | core/src/json.cpp:637-692 | what is read as a number is a number of section 6 of RFC 8259, and every one is, to its end, with the value of its digits if it is an integer of 64 bits |
| JsonParser.Parse | core/src/json.cpp:134-176 | a text is accepted exactly when it is one value between blanks that names no member twice in any object, and the result is that value |
| JsonGrammar.ValueRead | core/src/json.cpp:228-303 | whatever is read at a position is a value of the grammar of RFC 8259 spanning exactly what was read, at most sixteen values inside one another |
| JsonGrammar.ValueFound | core/src/json.cpp:228-303 | and every value of that grammar is read, to its end |
| JsonGrammar.DocumentIsRead | core/src/json.cpp:134-176 | a text is read as a value exactly when it is that value in the grammar, with blanks around it |
| JsonGrammar.OneMeaning | core/src/json.cpp:134-176 | so a text has one meaning at most |
| JsonParser.ParsedIsDocument | core/src/json.cpp:134-176 | parsing gives the value of every text of RFC 8259 that nests no deeper than sixteen and names no member twice in one object, and nothing for any other text |
| JsonParser.ParseEach | core/src/json.cpp:134-176 | what the streaming form accepts, hands over and returns, for every text, key, list of names kept and callback; and accepted or not, what it handed over is the start of what can be read of the array |
| JsonStreaming.StreamingIsParse | core/src/json.cpp:134-176 | for every text that starts with `{`: streaming with an always-accepting callback succeeds exactly when plain parsing does and the member is an array or absent, and hands over that array's elements and the document with it emptied |
| JsonStreaming.StreamingRootIsParse | core/src/json.cpp:140-160 | the same for a streamed root array |
| JsonStreaming.KeepingRefinesParse | core/src/json.cpp:363-444 | whatever plain parsing accepts the keeping form accepts, building the same document with unnamed members gone at every depth |
| JsonStreaming.StreamingIsBraced | core/src/json.cpp:150-156 | exactly what the streaming form accepts: any first byte that starts no JSON value is taken as the `{` |
| JsonStreaming.AcceptsWhatParseRefuses | core/src/json.cpp:150-156 | the input `x}` is accepted by the streaming form and refused by the plain one |
| JsonStreaming.OtherFirstByteIsRefused | core/src/json.cpp:150-156 | where the first byte is no `{`, one that starts another kind of value is refused by the streaming form, and one that starts none by the plain form |
| JsonWitness.KeepsWhatParseRefuses | core/src/json.cpp:380-444 | `{"a":{"k":1,"k":2}}` with `a` passed over is accepted by the keeping form and refused by the plain one |
| JsonStreaming.ObjectSame | core/src/json.cpp:363-432 | reading an object depends only on the bytes from where it starts |
| JsonText.StrictObject | core/src/json.cpp:380-420 | the duplicate-key rule of what the keeping form builds, member by member |
| JsonWriter.Quote | core/src/json.cpp:723-770 | the quoting loop writes the escaped text: two-character escapes, \u00 for other control bytes, everything else as it is |
| JsonWriter.QuoteArray | core/src/json.cpp:772-782 | a list of strings as a JSON array |
| JsonWriter.ParseUndoesShow | core/src/json.cpp:134-176 | every value of 64-bit integers, strings, booleans, nulls, arrays and objects within the nesting limit is parsed back from its compact text |
| JsonWriter.ParseUndoesQuote | core/src/json.cpp:723-770 | parsing a quoted byte string gives the string (sections 6 and 7 of RFC 8259) |
| JsonWriter.ParseUndoesQuoteArray | core/src/json.cpp:772-782 | parsing a quoted list gives the list |
| JsonWriter.ParseUndoesDecimal | core/src/json.cpp:637-692 | every 64-bit integer's decimal form parses to itself |
| AtomicFile.CommitStaged | core/src/atomic_file.cpp:144-195 | from every card, whatever exists, remove or rename answers and wherever the power goes: a reader of path, then path.old, finds what it would have found before or the whole staged record; failure leaves the former, success the new record at path; a card that refuses nothing commits what is staged and is left no former record |
| AtomicFile.MoveAside | core/src/atomic_file.cpp:162-173 | the former record is at path, or aside with path empty, in every state on the way |
| AtomicFile.WriteAtomically | core/src/atomic_file.cpp:202-255 | a record written in pieces is published whole or not at all, through every state a power cut can leave; and published, if the card refuses nothing |
| AtomicFile.Load | core/src/download.cpp:946-985 | what is found is the file, or its former record only if the file is missing; a file that will not open or is too long is never taken for a missing one; what is there and not too long is found, if the card refuses nothing |
| AtomicFile.LoadAfterCut | core/src/atomic_file.cpp:202-234 | in every state a power cut can leave of a write, what is found is the former record or the new one, whole; and nothing is found for a file that was there only when its former record is there |
| Restore.Restore | core/src/conflict_record.cpp:178-292 | under game writes at any moment up to the last look, no bytes are lost: what was at the save then is afterwards at the save, its .old or the new backup, in every state on the way; Restored means the save holds the old backup; no other outcome changes what a reader of the save recovers: for every old backup that is none of the names a new one may take, and every other the card does not hide; and on a card that refuses nothing, with no game writing meanwhile, a backup that is there and a name that is free, it is Restored |
| Restore.Overwrite | core/src/conflict_record.cpp:248-290 | from the backup on: if the new backup was put in the old one's place, Restored means that the save and the backup both hold what was to be replaced; on a card that refuses nothing, a save that changed, or a new backup that is gone, is told apart, and no staged file is left |
| Restore.RestoresItself | core/src/sync_execute.cpp:646-653 | a save and a backup whose name comes up again: whatever the card answers, every restore reported done has put the save's own bytes back, and the backup's are gone |
| Restore.Replace | core/src/conflict_record.cpp:218-292 | the steps themselves: back up, stage, look again, commit; and what each comes to when the old backup's name is taken for free |
| Restore.CommitKeeps | core/src/conflict_record.cpp:262-290 | from the last look to the end of the commit the bytes looked at stay findable |
| Restore.StandDown | core/src/conflict_record.cpp:218-262 | giving up before the commit leaves the save to the game alone |
| Restore.BackUpFirst | core/src/sync_execute.cpp:620-682 | a backup is taken under the first of the names that the card does not show to be taken, or there was nothing to back up, or it failed; nothing but the game touches the save, and no other name is written; a copy is kept only if the card confirmed it; it does not fail if the card refuses nothing, a name is free and the game is quiet |
| Restore.UnchangedSinceBackup | core/src/sync_execute.cpp:684-720 | success means the save holds what the backup holds, or is absent when nothing was backed up; and it is a success if so, when both will open |
| Restore.CopyStaged | core/src/atomic_file.cpp:278-347 | a chunked copy, which a game writing the source in between may tear; a source nobody writes is copied whole, and on a card that refuses nothing it is copied |
| Restore.CopyAtomically | core/src/atomic_file.cpp:349-364 | the copy is staged and then committed: a source nobody writes is published whole |
| Md5.Compress | core/src/md5.cpp:51-94 | the table-driven loop over one block is the four written-out rounds of section 3.4 of RFC 1321 |
| Md5.TablesAgree | core/src/md5.cpp:16-38 | the computed word and shift indices are the written-out ones of all 64 operations |
| Md5.NextOperation | core/src/md5.cpp:70-88 | one turn of the rotating four-word state is one operation of the RFC on its rotated operands |
| Md5.Md5Hasher.Update | core/src/md5.cpp:98-128 | absorbing data appends it to the message, whatever is buffered and however it is cut |
| Md5.Md5Hasher.Finish | core/src/md5.cpp:130-157 | the digest is the padded block fold of sections 3.1 to 3.5 of RFC 1321, in both tail cases |
| Md5.TailPads | core/src/md5.cpp:130-157 | both tail cases write exactly the padding of the whole message |
| Md5.PaddedLength | core/src/md5.cpp:130-157 | a padded message is a whole number of blocks |
| Md5.HashChunks | core/src/md5.cpp:98-157 | every way of cutting a message into chunks gives the digest of the message |
| Md5.Md5 | core/src/md5.cpp:161-165 | the one-shot digest is that of RFC 1321 |
| Md5Answer.KnownAnswer | core/src/md5.cpp:16-94 | the answer that section A.5 of RFC 1321 gives for "abc", through all 64 operations: it pins the table, the initial registers, the padding and the order of the bytes |
| ListService.GivenExactlyOnce | core/src/list_service.cpp:546-620 | in every reachable state the rows one live cursor was given are its library's, in order, without repeats, up to where it stands, missing only rows too large to be returned alone |
| ListService.Run | core/src/list_service.cpp:318-823 | any interleaving of begin, next, end and the two halves of a pump, with failures, backoff, dropped pages, eviction and reconfiguration, keeps every cursor's account |
| ListService.Service.ListBegin | core/src/list_service.cpp:318-344 | a new cursor at the start of its list, asked for as it was but for the bounds on a page, that was given nothing; those left too long go, and when there is no room the one touched longest ago |
| ListService.Service.ListNext | core/src/list_service.cpp:546-620 | by what an open cursor holds: a page that is ready is handed over as it is, once, and moved past; a failure is told once; a fetch that is out is still to come; one begins exactly when there is more, the service is configured and connected and no backoff holds; a platform list gives its next rows. No other cursor is touched, and one that is not open is refused |
| ListService.Service.ListEnd | core/src/list_service.cpp:346-356 | the cursor goes, with those left too long, and no other is touched; refused exactly when it is not there |
| ListService.Service.PumpOut | core/src/list_service.cpp:643-690 | the first cursor that waits is served, if the service is connected, and every other of its kind gives up what it holds without losing its place |
| ListService.Service.PumpIn | core/src/list_service.cpp:751-823 | an answer lands on the cursor it was asked for, and no other is touched: failed where it stood, or ready at a place no earlier; and a server that always answers has an answer exactly for a rom page not behind more oversized rows than are stepped over, and for a platform list that one answer holds |
| ListService.ReadAll | core/src/list_service.cpp:546-823 | a list is read to its end: with such a server, and rows that fit a page, asking for the next page and pumping while it is to come reaches the last word, whatever other cursors wait and whatever the times, if every part of the list has an answer |
| ListService.Await | core/src/list_service.cpp:633-823 | pumping ends with the cursor's own answer, after those that wait before it |
| ListService.AskOnce | core/src/list_service.cpp:546-620 | asking once ends the list, hands over rows, or brings the next ones nearer |
| ListService.Service.DropOthers | core/src/list_service.cpp:666-690 | a dropped page will be fetched again: nothing given, nothing skipped |
| ListService.FetchRoms | core/src/list_service.cpp:728-790 | rows from the offset on, past a bounded number too large to be returned alone, asked for at the page's size halved as often as need be; or refused. By a server that always answers: refused exactly when more such rows follow than are stepped over, and with the most rows, of the sizes tried, that one answer holds |
| ListService.BuildRomPage | core/src/list_service.cpp:494-544 | rows in order, as many as fit one after the other in a page, and whether there are more |
| ListService.GivenAscends | core/src/list_service.cpp:494-544 | in a library ordered by id what was given ascends |
| ListService.GivenMisses | core/src/list_service.cpp:494-544 | a row passed over without being given was stepped over |
| DownloadQueue.Queue.EnqueueLocked | core/src/download.cpp:458-508 | refused as unknown, duplicate or full exactly in those cases; otherwise the row goes behind all that waited, all of which stays in order, and the position is the number waiting |
| DownloadQueue.VictimMakesWay | core/src/download.cpp:466-492 | what makes way is the rom's own finished row, or the oldest finished row of a full queue: never an unfinished one |
| DownloadQueue.Queue.RemoveLocked | core/src/download.cpp:515-536 | takes out the one row, and forgets it as live and as last finished |
| DownloadQueue.Queue.UpdateLocked | core/src/download.cpp:730-756 | writes a row back only over the row of its id, and ends the rate measured over it |
| DownloadQueue.Queue.ReportProgress | core/src/download.cpp:691-705 | progress reaches only a row being fetched; anything else is left exactly alone |
| DownloadQueue.Queue.NextPending | core/src/download.cpp:712-723 | the first unfinished row not set aside |
| DownloadQueue.UndoTakenOut | core/src/download.cpp:429-451 | undoing the removal of a row, or its eviction, gives back the rows as they were |
| DownloadQueue.UndoWrittenOver | core/src/download.cpp:429-451 | undoing an update gives back the rows as they were |
| DownloadQueue.Queue.EnqueueAndStore | core/include/rommsync/download.hpp:543-556 | one step with its write: a refused write leaves the queue exactly as it was, and nothing else makes it fail |
| DownloadQueue.Queue.RemoveAndStore | core/include/rommsync/download.hpp:567-580 | one step with its write: a refused write leaves the queue exactly as it was, and nothing else makes it fail |
| DownloadQueue.Queue.UpdateAndStore | core/include/rommsync/download.hpp:582-593 | one step with its write: a refused write leaves the queue exactly as it was, and nothing else makes it fail |
| DownloadQueue.UndoAppended | core/src/download.cpp:421-451 | the undo record of a re-queue or a full queue's eviction gives back the rows as they were |
| DownloadQueue.ServeAll | core/include/rommsync/download.hpp:480-593 | over any interleaving of changes, progress and refused writes: ids distinct and positive, the bound kept, the live id names a row being fetched, the file equals memory but for how far moving rows have got, and an unfinished row goes only when it is asked to |
| DownloadQueue.ProgressMirrors | core/src/download.cpp:691-705 | progress leaves the stored file equal to memory but for the moving row's bytes |
| Drain.Worker.Run | core/src/download.cpp:1506-1562 | a drain terminates for any finite number of arrivals; completed means nothing unfinished is left, retryable that all that is left was set aside in this drain; at most budget + 1 requests a turn; every row settled as done names a path that held bytes whose SHA-1, or whose MD5 when the server recorded no SHA-1, is the one recorded, letter for letter in lower case; if no rom the server may offer can lie at a name that the transfer of another works under, or at one another is written to under another digest (`Drain.Apart`, a condition on the folders and the library alone), then in every state each rom's places hold what they held or such bytes of its own, and at the end every row settled as done still names some; a drain told to stop does; what is told of it counts its turns; and if nothing gets in the way, every rom that can be put on the card and is served as recorded is on it after its turn, and none waits at the end |
| Drain.Worker.One | core/src/download.cpp:1685-1817 | one row's turn: at most budget + 1 requests, the row finished, gone, or waiting with an outcome that says so, and the card touched only at its own destination's names; done, if nothing gets in the way of a rom served as recorded |
| Drain.Worker.FetchDetail | core/src/download.cpp:1986-2026 | between one and the budgeted number of requests, another only after an answer that may change, each counted on the row up to what is recorded; and a description the server offers or a verdict; a server that describes the rom is heard, and a drain told to stop does |
| Drain.Worker.Transfer | core/src/download.cpp:2028-2168 | whatever the server sends and whatever is dequeued meanwhile, one request past the budget at most, each after an answer that may change or bytes this turn did not fetch, and the destination only through Verify |
| Drain.Worker.Verify | core/src/download.cpp:2189-2247 | a row is settled as done with what was staged only when the bytes at its destination have the recorded SHA-1, or the recorded MD5 when there is no SHA-1, or nothing is recorded or the check is off; bytes this turn did not fetch that do not match leave the row to be fetched afresh; what was staged is used up; and what matches is moved into place, if nothing gets in the way |
| Drain.FitsIsAttested | core/src/download.cpp:329-365 | bytes pass the check exactly when what the server recorded vouches for them: its SHA-1, or its MD5 when it has only that, the letters A to F in lower case; and nothing is asked exactly when neither is recorded or the check is off |
| Drain.HoldsIsAttested | core/src/download.cpp:2189-2247 | so it is of every row a drain settles as done |
| Drain.KeptIsAttested | core/src/download.cpp:329-365 | and of what a reader finds wherever a rom on offer may be |
| Drain.Worker.AlreadyOnTheCard | core/src/download.cpp:1900-1930 | a rom is taken as present only when the check is on, a digest is recorded, and a file of its size, under its name in one of its folders, has it; and whenever one has, if the card refuses nothing |
| Drain.Worker.RoomOnTheCard | core/src/download.cpp:1932-1984 | a rom longer than a file may be, or than what is free, fails before a byte moves; one that goes on fits in what is free and what it already has |
| Drain.Worker.Settle | core/src/download.cpp:1627-1653 | the counts follow the write: a row that is gone is not counted |
| Drain.TallyCounts | core/src/download.cpp:1627-1653 | what is told of a drain is a count of its turns: rows done, skipped and failed, each once, and the ids of the roms that were brought, without those that were there already |
| Drain.Worker.Requeue | core/src/download.cpp:1657-1683 | the row waits again and says why; gone and merely retryable is simply over |
| Drain.Worker.Persist | core/src/download.cpp:1591-1620 | a written terminal row, and a row that is gone, wait no more; nothing else starts to |
| Drain.Worker.Resolved | core/src/download.cpp:1700-1770 | a rom gets a destination exactly when the answer is about it, it is one file the library holds, its row may be written, and its name and folder allow a path; failed and skipped are told apart |
| Drain.GoesWhere | core/src/download.cpp:1756-1816 | where a rom goes, from its names and the folders alone: the root, the first folder its platform maps, a slash, and its name; a folder of one file under the folder's name, with that file's extension if it has none |
| Drain.Worker.Salvage | core/src/download.cpp:2054-2082 | a body a power cut left staged is used only if it passes the digest |
| Drain.TurnDelivers | core/src/download.cpp:2189-2247 | a turn that keeps to its own destination keeps every other path of the whole drain's account |
| Drain.ApartKeepsHomes | core/src/download.cpp:1685-1817 | under that condition no rom on offer is lost, whatever the drain does: a reader finds what was there, or bytes passing the rom's own check |
| Drain.StagingLoses | core/src/download.cpp:1786-1930 | conversely, a rom at another's staging name is gone after every turn that moved that other into place: a reader finds what lay at the name for its former record, if anything did |
| Drain.MovingAsideLoses | core/src/download.cpp:2221-2247 | a rom at the name for another's former record is replaced by that record, in some state of every turn that replaced that other |
| Drain.FallingBackMisleads | core/src/download.cpp:2221-2247 | and one whose own former name another is written to is taken to be that other |
| Drain.SuffixCollides | core/src/download.cpp:1786 | two roms of one folder whose names differ by `.tmp`, `.tmp.part` or `.old` are never apart |
| Drain.SharingLoses | core/src/download.cpp:1900-1930 | a rom that may be where another goes, under another digest of the kind, is replaced by every turn that moves that other there |
| Drain.SharedDestinationIsNotApart | core/src/config.cpp:128-151 | two roms written to one place under different digests are never apart |
| Drain.FbneoReplacesArcade | core/src/config.cpp:128-151 | `sf2.zip` of arcade and of fbneo: every turn that moves the second into place replaces the first, which was there and checked |
| Drain.GameLosesItsTemp | core/src/config.cpp:659-700 | `game` and `game.tmp`: every turn that moves the first into place loses the second, which was there and checked |
| Drain.Fewer | core/src/download.cpp:1506-1562 | a turn that completes or is set aside leaves fewer rows to give a turn to |
| Drain.CommitKeeps | core/src/download.cpp:2221-2247 | a commit of passing bytes leaves a reader what it had or passing bytes, through every state |
| Drain.CopiesAreApart | core/src/config.cpp:967-1016 | no candidate for a rom already on the card is a scratch file of its destination |
| QueueFile.QueueRoundTrip | core/src/download.cpp:803-944 | parsing the serialised queue gives back every queue of usable, distinct, NUL-free rows within the bounds |
| QueueFile.SerializeQueue | core/src/download.cpp:830-836 | the piecewise writer's text is the queue's JSON text |
| QueueFile.PiecesAreTheText | core/src/download.cpp:803-836 | the pieces concatenate to the whole text whose size is counted |
| QueueFile.ParseQueue | core/src/download.cpp:838-944 | a queue is read exactly as its streamed entries say: whole, or discarded on any complaint |
| QueueFile.EntryIsSaid | core/src/download.cpp:137-215 | an entry is read as a row exactly when its members say it, each text without a NUL or null, the state one of the six that are known, and every field within its bounds |
| QueueFile.EntryReads | core/src/download.cpp:102-215 | every usable row is read back from its own object |
| QueueFile.AppendEntry | core/src/download.cpp:102-135 | a row's object, member by member |
| QueueFile.SaveQueue | core/src/download.cpp:1020-1082 | saved whole or not at all, never more than may be read back, and on any power cut the former or the new text; usable rows within the bounds are saved, if the card refuses nothing |
| QueueFile.SaveThenLoad | core/src/download.cpp:946-985 | a save that succeeded is what the next boot loads, if the file will open |
| ListPage.PageRoundTrip | core/src/ipc.cpp:1250-1365 | decoding the encoded page gives every page within its limits whose items name no key twice and carry no NUL |
| ListPage.WriteListPage | core/src/ipc.cpp:1250-1297 | one writer for text and count: both say the page's JSON text |
| ListPage.EncodedSize | core/src/ipc.cpp:1299-1303 | the size a page is judged by is the length it is sent at |
| ListPage.AppendIfItFits | core/src/ipc.cpp:1367-1386 | an item is added exactly when there is room and the whole page still fits |
| ConflictsView.Run | core/src/overlay_conflicts_view.cpp:336-777 | over every run in which each command gets one answer: overwriting commands never exceed confirming presses, one by one and kind by kind, and each names the row that was selected when A was last pressed on the list before its press; at most one is out, the page offset equals the rows held, and the selection is in range |
| ConflictsView.SentIsAsOpened | core/src/overlay_conflicts_view.cpp:336-757 | a command is sent for a press of its own, and a press names the entry opened last |
| ConflictsView.NoMoreThanPressed | core/src/overlay_conflicts_view.cpp:336-360 | commands each sent for a press of its own, in order, are no more than the presses |
| ConflictsView.ConflictsModel.Next | core/src/overlay_conflicts_view.cpp:336-384 | a press goes first and goes once, as the command it asked for; then a cancel, then a question after a restore; a page is asked for at the rows held, exactly near their end with more to come and none failed |
| ConflictsView.ConflictsModel.OnPage | core/src/overlay_conflicts_view.cpp:386-424 | only what was asked for is added, all of it that there is room for, and whether there is more is as the page says; every page kept adds rows or uses up one of a bounded number of useless answers |
| ConflictsView.ConflictsModel.OnRestoreState | core/src/overlay_conflicts_view.cpp:426-468 | the restore stays out only while its own entry is running; done, its row says what it came to; another one running means that a press started nothing; and anything else that what became of it is not known |
| ConflictsView.ConflictsModel.FinishRestore | core/src/overlay_conflicts_view.cpp:470-517 | only the first row of the entry changes, as the outcome says, and only the open entry it is about shows the outcome, its confirmation gone |
| ConflictsView.ConflictsModel.OnCancelKeepLocal | core/src/overlay_conflicts_view.cpp:519-539 | a cancel's answer ends the cancel and nothing else |
| ConflictsView.ConflictsModel.OnRefused | core/src/overlay_conflicts_view.cpp:541-570 | a refused restore is over; a refused page leaves the list as it was, no longer loading; a refused cancel is over |
| ConflictsView.ConflictsModel.OnUnreachable | core/src/overlay_conflicts_view.cpp:572-619 | after a slow link a command that may have been taken is asked about and not sent again; after a dropped one nothing is wanted |
| ConflictsView.ConflictsModel.OnLinkRestored | core/src/overlay_conflicts_view.cpp:621-631 | a session that was dropped starts over |
| ConflictsView.ConflictsModel.MoveSelection | core/src/overlay_conflicts_view.cpp:633-668 | the selection, or the choice of a save conflict's confirmation, moves by exactly what is asked, as far as its end; a failed page is asked for again when it moves or is pressed toward the end |
| ConflictsView.ConflictsModel.Activate | core/src/overlay_conflicts_view.cpp:670-757 | on the list the selected row is opened; on a detail a held choice is taken back, or a confirmation shown with keeping the server's copy chosen, exactly for a row whose bytes can be put back with no choice standing and nothing out; on a confirmation a press counts exactly if it still stands, of bytes that can be put back, with nothing out, and for a save conflict on Keep local |
| ConflictsView.ConflictsModel.Back | core/src/overlay_conflicts_view.cpp:759-777 | a confirmation goes back to its detail, and a detail to the list, which is about nothing |
| ConfigEdit.ApplyEdit | core/src/config_write.cpp:720-901 | refused before anything when the edit, the file or its version cannot be had; otherwise the edited text is handed out exactly when it is not too long and all that was asked is read back from it, and in it all lines that set none of the edit's names are still there, unchanged and in order; one setting is one line rewritten, added or begun with its section, with the folders in force when it is the first folder of its section; one removal is its lines and no others; and one assignment changes no other field or folder list, but for a choice in an empty section of a platform that is on by default |
| ConfigOutcome.OneIsAccepted | core/src/config_write.cpp:856-899 | one assignment is handed out exactly when it is not too long and, for a value, the file is receptive of it: always outside the platforms, for a platform unless it is past the number a file may map or, for folders, switched off; unless the comment of the line it is written to runs into the value |
| ConfigOutcome.PlacedReads | core/src/config_write.cpp:815-855 | wherever a value was placed, it is the last one the parser is given for its key, the platform's switch is as it was and no other section is opened, unless a comment ran into it |
| ConfigOutcome.RemovalMeans | core/src/config_write.cpp:816-824 | a setting outside the platforms that is removed has its default again, and nothing else has changed |
| ConfigWitness.OneMeansSame | core/src/config_write.cpp:815-855 | one value means nothing but itself exactly when it is not a choice in an empty section of a platform that is on by default |
| ConfigWitness.ChooseEmulator | core/src/config_write.cpp:720-901 | at `[platform.gb]` with nothing in it, choosing an emulator or where to play is accepted, and maps the folders the file had unmapped |
| ConfigWitness.CommentRunsIn | core/src/config_write.cpp:244-278 | `enabled = ; note` set to `true` reads back as something else |
| ConfigEdit.RemoveAll | core/src/config_write.cpp:816-824 | exactly the lines that set the key are gone, and no others |
| ConfigEdit.ApplyOne | core/src/config_write.cpp:815-855 | one assignment: remove all its lines, rewrite its last, put it in its section, or add the section |
| ConfigEdit.RewriteLast | core/src/config_write.cpp:825-831 | the last line of the key is rewritten in place, keeping its text up to the `=` and its comment, and nothing else means anything different |
| ConfigEdit.AddToSection | core/src/config_write.cpp:832-846 | a line added to its section, with the folders in force when it is the first folder line |
| ConfigEdit.AddSection | core/src/config_write.cpp:847-849 | a section added at the end, with the folders in force when it is a platform's folder |
| ConfigEdit.NewSectionBody | core/src/config_write.cpp:675-716 | the folders in force with the assignment on top, or the assignment alone |
| ConfigEdit.BodyCarries | core/src/config_write.cpp:675-716 | every folder list in force but the one being set reads back as itself from the lines written |
| ConfigEdit.ResolveAll | core/src/config_write.cpp:748-803 | an edit is resolved whole or not at all: exactly when every assignment names a setting of this build, with a value it may have, and no setting is named twice |
| ConfigEdit.ReadBack | core/src/config_write.cpp:865-898 | an edit is held exactly if the parser reads what was asked, and nothing of what was removed |
| ConfigMeaning.OneKeyMeans | core/src/config.cpp:1062-1371 | one key's line changed or added changes no other field and no other folder list |
| ConfigMeaning.CarriedMeans | core/src/config.cpp:1299-1360 | the first folder line of a section leaves the platform's other two lists as they were in force |
| ConfigMeaning.AppendedMeans | core/src/config.cpp:1112-1180 | a section added at the end changes nothing but the key it was added for |
| ConfigMeaning.ChoiceTurnsOn | core/src/config.cpp:1335-1345 | a choice of either kind in such a section gives the platform its built-in folders, and so means something else |
| ConfigLines.Split | core/src/config_write.cpp:75-115 | a text taken apart is still the text: BOM, line ends and a missing last one included; a new line will end in a carriage return and a feed exactly if some line does, and no line that ends in a feed keeps a carriage return before it |
| ConfigLines.RoundTrip | core/src/config_write.cpp:60-115 | rendering what was split gives the text, for every text |
| ConfigLines.ParserReads | core/src/config.cpp:1086-1110 | the parser, which leaves a carriage return on its lines, reads what the editor's lines say |
| ConfigLines.Document.AssignmentLines | core/src/config_write.cpp:171-188 | the lines found by the editor's own reading are exactly those the parser takes the key from |
| ConfigLines.Document.InsertPoint | core/src/config_write.cpp:190-212 | just past the section's last meaningful line, where the parser has that section open; or the parser never opens it |
| ConfigLines.Document.Insert | core/src/config_write.cpp:214-225 | one line in, and the last line has an end of its own exactly if it had |
| ConfigLines.Document.Erase | core/src/config_write.cpp:227-234 | one line out, and the last line has an end of its own exactly if it had |
| ConfigLines.Document.AppendSection | core/src/config_write.cpp:300-310 | a header and its lines at the end, after a blank line if the last one is not blank; and the last line has an end exactly if it had |
| ConfigText.ReadersAgree | core/src/config_write.cpp:120-168 | the two line readers agree on every line: what is a header and of which section, and every key |
| ConfigText.RewrittenReads | core/src/config_write.cpp:244-278 | a rewritten line sets the same key, keeps its text up to the `=` and its comment, and reads back as the value exactly when the comment does not run into it |
| ConfigText.NewAssignmentReads | core/src/config_write.cpp:290-298 | a new line reads back as its key and value |
| ConfigText.HeaderReads | core/src/config_write.cpp:300-309 | a new header opens the section it names |
| ConfigText.ReturnIsSpace | core/include/rommsync/config_text.hpp:25-32 | a carriage return at the end of a line means nothing |
| ConfigText.ItemOfStripped | core/src/config.cpp:1176-1195 | what a line sets, straight from what is before and after its first `=` |

## Left out

- Tarjan.StronglyConnected: function titles and demangled labels are numbers in their sorted order; reading the compiler's call-graph files and the rules for indirect calls are not modelled.
- StackBudget.MeasureThread: the report's text and its `sized` table for people are not modelled; problems are kinds, not sentences.
- JsonParser.Parse: error messages and offsets are not modelled, only acceptance and the value; a number outside 64 bits or with a fraction is a number without an integer value.
- AtomicFile.CommitStaged: every step that succeeded is on the card; a card that loses a rename it has acknowledged because nothing synced it yet is not modelled, and `durable` is only reported.
- Restore.UnchangedSinceBackup: contents are compared where the source compares their hashes.
- Restore.BackUpFirst: the backup's name, its clock and its uniquifier are a list of candidate names; pruning of old backups is not modelled.
- Restore.Restore: the outcome's text is not modelled; `KeepLocal`, which calls it after two checks of the history, is not modelled.
- Drain.Worker.Run: backoff, waiting and its jitter only delay and are not modelled; which requests were sent is counted, their headers and URLs are not.
- Drain.Worker.Verify: whether a failed commit's sentence mentions a copy under `.old` is not modelled.
- Drain.Worker.Resolved: which characters a card refuses in a name, other than `/`, is a parameter, as is what the queue file refuses to record.
- DownloadQueue.Queue.Restore: moving rows instead of copying them is not modelled.
- DownloadQueue.ServeAll: the status and snapshot projections for the overlay are not modelled.
- QueueFile.SaveQueue: which error of a refused save is reported is not modelled.
- QueueFile.ParseQueue: diagnostics are not modelled beyond there being any.
- ListService.Run: the queue's own list, the on-disk mark of a rom and the text of rows are not modelled; a row is its id and may be too large to send.
- ListService.GivenExactlyOnce: the library is fixed while a cursor lives, as the property needs.
- ConflictsView.Run: drawing, sentences, the history's total and the time a restore takes are not modelled.
- ConfigEdit.ApplyEdit: diagnostics and notices are not modelled; the meaning of a whole edit of several assignments is stated line by line and by reading back what was asked, and setting by setting only for one assignment; a platform setting that is removed is not claimed to leave the platform's other lists in force.
- ConfigMeaning: whether a file is past the size a configuration may have is checked where the editor checks it, not inside the reading.
- The conflict history's file (core/src/conflict_log.cpp) would repeat the queue file's round trip with other fields.
- The LZ4 block decoder, the log ring and its redactors, the authorisation gate and the small codecs of core/src/ipc.cpp.
- HTTP, TLS, sockets, real file I/O, clocks, randomness, rendering and every sentence meant for people.
