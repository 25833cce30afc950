# A verified model of Worklode's hard core

Worklode is a work-tracking server: tasks, plans and documents in one store, an append-only event log beside
it, and web, command-line and MCP clients on top. This project models the parts of it whose correctness is an
argument rather than a reading, and proves that argument in Dafny. `dafny verify dfyconfig.toml` checks all
of it.

Each component is written twice where the program changes state: as a method or class in the program's own
form (loops, fields, maps filled step by step), and as a function of values that the method is proved equal
to. The theorems are about the function, over all inputs and all runs.

| component | files | main result |
|---|---|---|
| root-cause ranking over the blocker graph | `BlockerGraph`, `RootCauses`, `ConcernRanking`, `RootCoverage`, `RootChain`, `InboxOrder` | the recorded roots are exact if and only if no cycle is reachable; which terminal roots are found, exactly, on any graph; linear cost on any graph; the ranking is independent of iteration order and, with no cycle above a held task, the ranking and its diagrams are independent of input order; what ranks before what, by named priority, number held, age and id |
| the Turtle parser and RDF lists | `TurtleSyntax`, `TurtleParser`, `TurtleGrammar`, `TurtleAccepts`, `TurtleMeaning`, `TurtleReading`, `TurtleRoundTrip`, `TurtleNaming`, `RdfLists` | exactly which token lists are accepted; parsing undoes printing, each blank node under its own label; the triples give the meaning back if and only if no IRI is spelled like such a label; every collection reads back whole in a document that does not itself write rdf:first or rdf:rest |
| the claim replay | `ClaimReplay`, `ReplayConverges` | every claim is the right one by state, group and named priority; the proposed key works on one group at a time, with the fewest possible switches per phase |
| following the event log | `EventLog`, `EventFrames`, `EventFollow`, `EventCursor`, `ProgressFrames`, `ProgressCuts`, `Webhooks`, `MorningBrief`, `BriefView` | the wire format reads back for all text and for a cut at any character, event by event; no follow of the event log that names a cursor skips or repeats an event; exactly when a late correlation, a frame of a cut batch or an event under review is missed |
| login, consent and codes | `SingleUse`, `ConsentProtocol`, `ConsentRuns` | over every run, every MCP token traces to one Allow on one consent of one accepted request, told on the requests alone; what a command-line token traces to, exactly |
| blobs | `BlobStores`, `BlobGrace` | rows never outlive their objects, whatever write fails, as long as the sweeps can read the index; an undisturbed sweep collects exactly what it should; exactly which uploads the grace period protects |
| effects under redelivery | `EffectKeys`, `EffectRules` | what each event leaves, row by row; at most one effect per key; exactly when an acknowledged decision is the effect recorded; exactly when a redelivery records more |

`Text` and `Sorting` hold decimal numerals, byte-wise text order and facts about sorting.

## What is assumed of the surroundings

- A blocked fact has at least one direct blocker, task ids are unique within a pass, and no task id has the
  form of a plan key.
- Event ids are positive and what becomes visible later has a larger id; `ListEvents` pages in id order.
- The body of an event frame is compact JSON, so it holds no line break.
- Random ids, nonces and states do not repeat; a signed cookie verifies only if the server signed it. Login
  states and the two intents are signed alike, so any of them may be presented as any other and is decoded field
  by field; a session's payload is not JSON and stays apart. The S256 hash is an arbitrary function.
- Handlers of the blob stores run one at a time, except that references may be added between a sweep's listing
  and its deletions; any write may fail before or after it took effect, and a crash is a handler whose remaining
  writes all fail before taking effect. A row may fail to be read in an upload and in the second sweep. An object
  key ends in its hash.
- A GitHub delivery is visible from its first transaction on; its second one marks it applied and may change
  what it touches, but not its kind. Whether and when it runs is open.
- What the document rules decide about an event may differ between its deliveries, because what is open
  changes in between.

## Where the code differs from what is said about it

- The comment on `rootCauses` says that every root cached for a node inside a cycle is a member of that cycle, and
  that it is correct to reuse. An entry can name a root on no cycle, and reusing it can leave out a terminal
  root (`ConcernRanking.CycleDropsRoot`), or not, if the facts come in another order
  (`RootCoverage.OrderKeepsRoot`). Which terminal roots are recorded is said exactly in
  `RootCoverage.RecordedExactly`; that they and no other roots are is equivalent to no cycle being reachable
  (`ConcernRanking.HeldExactlyWhenCycleFree`).
- A blank node's label and an IRI may be spelled alike: `<_:b1>` is an IRI token, and the triples then mix the two up
  (`TurtleNaming.IriTakenForBlank`, and exactly when in `TurtleNaming.ReadBackExactly`).
- The docstring of the parser says that everything it does not list raises its own error, bare numbers among it. A
  number is accepted as the name of a prefix (`TurtleAccepts.NumberNamesPrefix`, and nowhere else by
  `TurtleAccepts.NumbersRefused`); literals, collections and blank nodes are accepted as verbs, datatypes, prefixes
  and base, exactly as `TurtleAccepts.AcceptsExactly` says; and a name behind a boolean prefix or base raises
  Python's TypeError.
- The comment on `rootChain` says that only a task that is not itself ready can be counted and missing from the
  diagram. The missing task is ready; it is a blocker between it and the root that is not
  (`RootChain.HeldButNotShown`, and exactly when in `RootChain.DiagramShowsExactly`).
- A follow without a cursor promises what happens next. If it is cut off before its first message it starts
  over at the newer head (`EventFollow.BareFollowMisses`); `EventFollow.BareGapExactly` says exactly when events
  are missed.
- `?after=0` on the activity stream asks for a replay, but reads only the newest page
  (`EventFollow.ActivityPageExactly`).
- A progress batch sends its frames documents first and several under one id, so a cut inside a batch can lose
  the rest of it (`ProgressFrames.CutLosesTask`, and exactly when in `ProgressFrames.CutLosesNothingExactly`).
- The comment in `progressEvents` says that stopping before an event whose apply is still running keeps its task
  frame. It stops only before pr and ci deliveries: the tasks of a push or a deployment status can be lost
  (`ProgressFrames.PushTouchLost`, and exactly when in `ProgressFrames.TouchesCurrentExactly`). And it stops at a pr
  or ci delivery of an unmapped repository, whose apply is not running, until the repository is mapped and the
  delivery is redelivered or replayed (`Webhooks.UnmappedHolds`, and exactly when in
  `Webhooks.StandsStillUntilApplied`).
- The comment on `reviewedThroughNow` says that the clamp keeps a forged value from marking unseen events
  reviewed. A recorded event that was never shown is still marked (`MorningBrief.UnseenCanBeReviewed`);
  `MorningBrief.ReviewedWasShownExactly` gives the condition the handler would have to check.
- The comment on `finishLogin` says that an intent cookie is honoured only when its nonce is this login's. So it
  is, but the payload may be the login's own (`ConsentProtocol.CliTokenWithoutCliLogin`); a command-line intent
  is told exactly by its mode (`ConsentProtocol.CliTokensTraced`).
- The second sweep takes every failure to read a row for its absence (`BlobStores.MisreadTakesObject`, and
  exactly when in `BlobStores.SweepSoundExactly`), and the loss lasts (`BlobStores.MissingLasts`).
- The comment on `defaultGCGrace` says that the grace period keeps the sweeps clear of uploads in flight. It does for
  new bytes; uploading bytes again whose old row nothing references does not make the row younger, and the next
  sweep may take it before it is attached (`BlobGrace.UploadSurvivesExactly`).
- The comment on `performDocAction` says that an open task's timeline shows the acceptances it stands for. One
  delivery's note keeps the next delivery of the event from being noted on another task
  (`EffectKeys.NoteSwallowedOnRedelivery`, and exactly when in `EffectKeys.AckedCarriesExactly`).

## Model

| member | source | states |
|---|---|---|
| BlockerGraph.ListDirectBlockers | internal/api/cockpit_rank.go:46-55 | The loop lists the open blockers first, then the blocking plans; nothing is listed exactly when the fact is unblocked. |
| BlockerGraph.DirectBlockersTold | internal/api/cockpit_rank.go:46-55 | Each open blocker under its own id, title and state, then each plan under the key `plan:` and its id, and nothing else. |
| RootCauses.ChasePass.RootCauses | internal/api/cockpit_rank.go:236-268 | The imperative walk over the shared path, memo and counter answers exactly as the functional chase from the same state, leaves the path as it found it, and ends on every graph. |
| RootCauses.ChaseSound | internal/api/cockpit_rank.go:202-209 | On any graph, cycles included: the roots are non-empty, without duplicates, reachable from the reference, and each is terminal or a member of a blocked-by cycle. |
| RootCauses.ChaseKeepsInvariant | internal/api/cockpit_rank.go:211-230 | Every memo the calls of a pass can leave keeps the promise the next call relies on. |
| RootCauses.ExactWhenCycleFree | internal/api/cockpit_rank.go:211-216 | With no cycle above the reference, any memo of the pass and any path give the unmemoised answer, duplicate-free, whose ids are exactly those of the terminal blockers reachable from it. |
| RootCauses.TerminalExactlyWhenCycleFree | internal/api/cockpit_rank.go:216-225 | With any memo of the pass, all roots answered are terminal if and only if no cycle can be reached from the reference. |
| RootCauses.PlainComplete | internal/api/cockpit_rank.go:252-260 | The unmemoised walk from a cycle-free reference covers every terminal blocker above it. |
| RootCauses.ChaseCost | internal/api/cockpit_rank.go:232-237 | Each blocked task is expanded at most once per pass: a chase makes no more calls than one plus the edges of the tasks it newly memoises. |
| ConcernRanking.CallsLinear | internal/api/cockpit_rank.go:140-155 | One pass reports at most twice as many calls as there are blocker edges leaving blocked tasks, on any graph. |
| ConcernRanking.MarkFactsSound | internal/api/cockpit_rank.go:140-155 | On any graph every recorded root is genuine, holds only tasks it stands above, and every ready-and-blocked task is recorded under some root; the memo promise survives the whole pass. |
| ConcernRanking.EveryHeldTaskHasRoot | internal/api/cockpit_rank.go:142-155 | On any graph every ready-and-blocked task ends up held by a root. |
| ConcernRanking.HeldExactly | internal/api/cockpit_rank.go:150-154 | A task no cycle is reachable from is held by a root if and only if that root is the id of a terminal blocker above the task. |
| ConcernRanking.HeldExactlyWhenCycleFree | internal/api/cockpit_rank.go:211-230 | A held task is recorded under exactly the terminal blockers above it if and only if no cycle can be reached from it. |
| ConcernRanking.CycleDropsRoot | internal/api/cockpit_rank.go:211-230 | One pass over three tasks: a terminal blocker above the third is not recorded for it, because the memo entry of a member of the cycle was pinned on another walk; and a member's entry names a root that is on no cycle. |
| RootCoverage.ChaseCoversExactly | internal/api/cockpit_rank.go:236-268 | On any graph, from any path and with any memo, a chase answers with a terminal root if and only if a line of blockers leads from the reference, off the path and through unmemoised blocked tasks only, to it or to a memoised task whose entry names it. |
| RootCoverage.RecordedExactly | internal/api/cockpit_rank.go:140-155 | A pass records a held task under a terminal root if and only if such a line leads from one of its direct blockers, off the task, given the memo that earlier visits left. |
| RootCoverage.FirstMissesNothing | internal/api/cockpit_rank.go:140-155 | On any graph the first held task of a pass is recorded under exactly the terminal roots above it. |
| RootCoverage.OrderKeepsRoot | internal/api/cockpit_rank.go:218-226 | The three tasks in another order: the root that the first order drops is recorded. |
| ConcernRanking.RankingDetermined | internal/api/cockpit_rank.go:164-200 | Two rankings of the same roots are the same list: the iteration order of the roots map and of each held map cannot show. |
| ConcernRanking.RankingOrderFree | internal/api/cockpit_rank.go:109-200 | With unique ids and no cycle above a held task, every permutation of the facts gives the same order, fan-outs and oldest times. |
| ConcernRanking.OutranksOrders | internal/api/cockpit_rank.go:179-193 | The score comparison (best priority, fan-out, age, id) is transitive and asymmetric. |
| ConcernRanking.MarkTask | internal/api/cockpit_rank.go:142-154 | One held task: its chases run on the shared pass, each from a path holding only the task itself. |
| ConcernRanking.MarkRoots | internal/api/cockpit_rank.go:140-155 | The double loop leaves exactly the roots and the call count of the specification. |
| ConcernRanking.ScoreRoot | internal/api/cockpit_rank.go:164-176 | The inner loop computes the best priority, the fan-out and the oldest blocked-since of a root, whatever order its held map is iterated in. |
| ConcernRanking.RankConcernRoots | internal/api/cockpit_rank.go:109-200 | The whole function returns a ranking of exactly the recorded roots, and the call count; an earlier root holds a critical task or no later one does, and so down the named priorities; at the same best priority it holds more tasks, then is older, then has the smaller id; its age is that of the earliest state event it holds. |
| ConcernRanking.RankedBySignal | internal/api/cockpit_rank.go:158-193 | In any ranking of any roots each earlier root has the stronger signal by named priority, number of tasks held, age and id, and the age told is that of the earliest state event among the tasks held. |
| ConcernRanking.ListHeld | internal/api/cockpit_rank.go:115-120 | The held tasks are exactly the ready ones with an open blocker or an unfinished plan in front, and those stored as blocked. |
| Text.LexLessExactly | internal/api/cockpit_rank.go:192-192 | The byte order: a common start, then a smaller character or nothing more. |
| ConcernRanking.HoldUnder | internal/api/cockpit_rank.go:147-153 | Every root of one chase holds the task and files it under the direct blocker that was chased. |
| RootChain.RootChain | internal/api/cockpit_rank.go:339-346 | The diagram is drawn by one pen that has already visited the root. |
| RootChain.ChainPen.ChainNode | internal/api/cockpit_rank.go:367-385 | The recursive method draws as the specification does from the same visited set, and ends whatever was filed. |
| RootChain.ShownExactly | internal/api/cockpit_rank.go:331-346 | Whatever was filed, cycles included: the diagram shows exactly the tasks filed under the root, directly or through other tasks. |
| RootChain.DrawnOnce | internal/api/cockpit_rank.go:362-385 | The first level is the sorted children of the root; below each other shown task that has children, all of them are drawn, best priority first, in exactly one place. |
| RootChain.KidsInOrder | internal/api/cockpit_rank.go:351-360 | What is filed under a task is listed once each time it was filed, the more urgent named priority first, then the smaller id. |
| RootChain.PrioritiesOnTop | internal/api/cockpit_rank.go:339-385 | The root's direct children carry their priority, and no node further down carries one. |
| RootChain.DiagramShowsExactly | internal/api/cockpit_rank.go:331-346 | With no cycle above a held task: a task is shown if and only if a line of ready tasks, each naming the next as a direct blocker, leads from it to the root. |
| RootChain.AllShownWhenReady | internal/api/cockpit_rank.go:331-338 | If moreover every blocked task is ready, the diagram shows exactly the tasks the root holds. |
| RootChain.HeldButNotShown | internal/api/cockpit_rank.go:335-338 | A ready task behind one that is in progress is held by the root and missing from its diagram. |
| RootChain.DiagramOrderFree | internal/api/cockpit_rank.go:348-359 | With unique ids and no cycle above a held task, every permutation of the facts gives every root the same diagram. |
| InboxOrder.ConcernPositions | internal/api/inbox.go:203-226 | The positions send each held task to the first kept root holding it, counted after the roots without a member project are dropped, and nothing else has one. |
| InboxOrder.FirstHolderUnique | internal/api/inbox.go:216-224 | There is only one such position map, so the order each held map is iterated in cannot show. |
| InboxOrder.KeptInOrder | internal/api/inbox.go:207-225 | Dropping roots keeps the order of the rest. |
| InboxOrder.MemberTaskHasPosition | internal/api/inbox.go:203-226 | On any graph every ready-and-blocked task of a member project has a position. |
| InboxOrder.SplitWork | internal/api/inbox.go:157-171 | Each active task lands in at most one of the three work buckets, the first that claims it, and inactive tasks in none. |
| InboxOrder.WorkItemsOrder | internal/api/inbox.go:232-252 | A bucket sorts to one list whatever order it came in: positioned tasks first, by position; among equals the more urgent named priority, then the smaller id. |
| ClaimReplay.SpecOfPlan | scripts/health.py:213-222 | The document a plan covers most often, the smallest id among ties, none for a plan that covers nothing. |
| ClaimReplay.PlanTasks | scripts/health.py:225-242 | Each known plan gets exactly its minted tasks. |
| ClaimReplay.GroupTasks | scripts/next_sim.py:52-64 | Every task is grouped by the spec of its plan, else by its plan, else alone, whatever order the plans come in; nothing else is grouped. |
| ClaimReplay.GroupState | scripts/next_sim.py:67-79 | The open groups and the unfinished, unclaimed tasks of each group, under the claims so far. |
| ClaimReplay.KeyLessOrders | scripts/next_sim.py:82-111 | Ranking keys are compared by a strict total order. |
| ClaimReplay.PickNext | scripts/next_sim.py:121-128 | The pick ranks strictly before every other task that can be claimed, under the state of the groups at that moment. |
| ClaimReplay.Replay | scripts/next_sim.py:114-131 | Each of the first `picks` claims is the right one at its turn: critical tasks first; within a phase the open group with the fewest unfinished tasks, and only without an open group the least task by named priority, age and id, whatever the group sizes; under the current key the least task in any group. A negative count gives none, a large one all ready tasks. |
| ClaimReplay.ReplayIsRight | scripts/next_sim.py:93-111 | The same of every claim of every replay, told on states, groups and named priorities alone. |
| ReplayConverges.StaysInGroup | scripts/next_sim.py:93-111 | While a group has work left in the phase of the last claim, the next claim is in that group and phase. |
| ReplayConverges.OneGroupAtATime | scripts/next_sim.py:93-131 | In every proposed-key replay, within the critical phase and within the rest, each group is claimed in one contiguous block. |
| ReplayConverges.LeftOnlyWhenDrained | scripts/next_sim.py:98-106 | A group is left only when nothing of it in that phase can be claimed any more. |
| ReplayConverges.BlocksSwitchLeast | scripts/next_sim.py:134-138 | A list of picks switches exactly as often as it has distinct groups less one if and only if each group is one block, and never less often. |
| ReplayConverges.CountSwitches | scripts/next_sim.py:134-138 | The count of consecutive picks that change group. |
| ReplayConverges.FewestSwitches | scripts/next_sim.py:93-138 | With no critical task among the picks, the replay switches exactly distinct groups less one, and no other order of those picks switches less. |
| ReplayConverges.TwoPhaseSwitches | scripts/next_sim.py:93-138 | In general the switch count is that of the two phases, each least, plus one where they meet in different groups. |
| ReplayConverges.StaticReplayIsSortedPrefix | scripts/next_sim.py:114-131 | The replay under the current key is the prefix of the ready tasks sorted by that key. |
| ReplayConverges.FullDrain | scripts/next_sim.py:114-131 | A replay as long as the ready list claims every ready task exactly once. |
| ReplayConverges.ProposalSwitchesLess | scripts/next_sim.py:93-138 | Over a full drain without critical tasks the proposed key never switches more often than the current one. |
| ReplayConverges.ProposalSwitchesAtMostOnceMore | scripts/next_sim.py:93-138 | Over a full drain of any ready list, critical tasks included, the proposed key switches at most once more than the current one. |
| TurtleParser.Parser.TermAt | scripts/nsgen.py:147-177 | The recursive method reads one term exactly as the functional parser from the same state, errors included; the end of the input and every token that begins no term raise its own error. |
| TurtleParser.Parser.CollectionAt | scripts/nsgen.py:179-197 | Collects the items, mints a cell each, and emits first and rest arcs ending in nil. |
| TurtleParser.Parser.PairsAt | scripts/nsgen.py:225-242 | The predicate-object loop with `,`, `;` and a trailing `;` before `.` or `]`. |
| TurtleParser.Parser.DirectiveAt | scripts/nsgen.py:210-219 | Prefix and base declarations, and the error for any other directive. |
| TurtleParser.Parser.Parse | scripts/nsgen.py:201-208 | The whole parse ends on every token list and equals the functional parser. |
| TurtleAccepts.AcceptsExactly | scripts/nsgen.py:94-242 | Every token list: it is parsed if and only if it is the tokens of a document, terms standing wherever the parser takes one, whose names all resolve where they stand. |
| TurtleAccepts.NumbersRefused | scripts/nsgen.py:105-107 | In an accepted list a number, or a word other than `a`, `true` and `false`, stands nowhere but right behind `@prefix`. |
| TurtleAccepts.NumberNamesPrefix | scripts/nsgen.py:212-215 | There it is accepted: the token that names a prefix is not looked at. |
| TurtleAccepts.DatatypeRead | scripts/nsgen.py:160-167 | A datatype is read like any term, and what it emits and mints stays. |
| TurtleReading.TermParses | scripts/nsgen.py:147-177 | A printed term, followed by anything that does not continue a literal, is read back as its node and facts, consuming exactly its tokens; it fails if and only if it uses an undeclared prefix. |
| TurtleReading.PairsParse | scripts/nsgen.py:225-242 | The same for printed predicate-object lists. |
| TurtleRoundTrip.ParsePrinted | scripts/nsgen.py:94-242 | Parsing the printed tokens of any document of the subset consumes them all and yields exactly the triples of its meaning (RDF 1.1 Turtle, sections 2.8 and 7.3), nested `[ ]` and `( )` included, each blank node written as its own label and as many labels minted as nodes written. |
| TurtleRoundTrip.ParseFailsOnlyOnPrefixes | scripts/nsgen.py:141-145 | Parsing a printed document fails if and only if it uses a prefix before declaring it. |
| TurtleRoundTrip.LabelInjective | scripts/nsgen.py:135-138 | No label is minted twice. |
| TurtleNaming.NamingInjectiveExactly | scripts/nsgen.py:135-152 | The naming of all nodes of a document is injective if and only if no IRI written in it resolves to the text of a label that was minted. |
| TurtleNaming.ReadBackExactly | scripts/nsgen.py:135-152 | Taking every minted label in the triples for a blank node gives the document's meaning back if and only if no IRI written in it resolves to the text of such a label. |
| TurtleNaming.SameTriplesSameMeaning | scripts/nsgen.py:135-208 | Documents in which no IRI resolves to the text of any label, and which parse to the same triples, mean the same up to their blank nodes. |
| TurtleNaming.IriTakenForBlank | scripts/nsgen.py:61-61 | Two documents, one with a blank node and one with an IRI spelled like its label, parse to the same triples and mean different things. |
| RdfLists.OrderedList | scripts/nsgen.py:294-310 | The method builds the two dictionaries (last triple wins) and walks; it ends on any triples, by result, TurtleError or KeyError, as specified. |
| RdfLists.AcceptsExactlyChains | scripts/nsgen.py:294-310 | On arbitrary triples it succeeds with some items if and only if the head starts a nil-ended chain of cells holding exactly those items; cycles and broken cells are refused. |
| RdfLists.RefusesExactly | scripts/nsgen.py:294-310 | Python's KeyError comes if and only if the cells lead to one that has a first but no rest; every other list that is no chain raises the parser's own error. |
| RdfLists.LinksAreLast | scripts/nsgen.py:295-296 | Of several links of one cell the last in the document counts. |
| RdfLists.CollectionsReadBack | scripts/nsgen.py:179-197 | For a printed document none of whose verbs is rdf:first or rdf:rest, reading any of its collections back from the full triple list returns exactly its items, in order. |
| RdfLists.HeadOfCollection | scripts/nsgen.py:192-197 | The head of a non-empty collection is the first cell of its logged list; the empty one is nil. |
| EventFrames.StripKeepsTheRest | internal/api/eventstream.go:270-272 | Stripping an event type removes exactly its line-break characters. |
| EventFrames.NormaliseKeepsLines | internal/api/activity.go:258-263 | After normalising, splitting at newlines gives exactly the lines a reader of the stream would see in the original text. |
| EventFrames.TrimDropsNewlines | internal/api/activity.go:275-275 | Trimming the markup removes exactly the newlines at its end. |
| EventFrames.FrameWriter.WriteEventFrame | internal/api/eventstream.go:282-301 | Appends one event frame. |
| EventFrames.FrameWriter.WriteActivityFrame | internal/api/activity.go:270-286 | Appends one activity frame, line by line, with a `data:` line for every line of the trimmed markup. |
| EventFrames.ReadBack | internal/api/eventstream.go:274-301 | Reading any concatenation of event frames, activity frames and heartbeats by the HTML Standard (sections 9.2.5 and 9.2.6) gives one message per frame in order, with its id, its break-free type (or "message" when nothing is left of it) and its data, whatever the type or markup contains. |
| EventCursor.ActivityReads | internal/api/activity.go:270-286 | An activity row is read as its id and its markup, line for line, without the newlines at the end. |
| EventFrames.CutStream | internal/api/eventstream.go:274-301 | However many characters of the stream arrive, the reader has exactly the messages of the frames that arrived whole, and its last event id is that of the last of them. |
| EventFrames.TypeKeptExactly | internal/api/eventstream.go:290-299 | The type reads back unchanged if and only if it is non-empty and holds no line break. |
| EventLog.MatchingSplits | internal/store/events.go:527-557 | Moving the cursor to a later id drops exactly the matching events at or before it. |
| EventLog.Resume | internal/store/events.go:527-557 | Reading on from the id of the k-th event read gives exactly the rest. |
| EventLog.ListsExactly | internal/store/events.go:527-557 | A page is the first of the events of the type past the cursor, in id order: as many as were asked for, and 200 when that is more or nothing sensible. |
| EventFollow.NamedDecimal | internal/api/eventstream.go:85-106 | A frame id sent back as Last-Event-ID is read as that id exactly when it fits a signed 64-bit integer. |
| EventCursor.StartExactly | internal/api/eventstream.go:86-107 | Which of head, cursor and refusal a request starts with: the header wins, a text in either place that names no number from 0 to the largest signed 64-bit one is refused, nothing at all means the head. |
| EventFollow.ReceivesInOrder | internal/api/eventstream.go:170-226 | After any run of log growth, partial polls, deliveries, cuts and reconnects, what a client received is a gap-free, duplicate-free prefix of the matching log past its base cursor, in id order. |
| EventFollow.CursorNeverGaps | internal/api/eventstream.go:85-106 | A client that names a start cursor never misses an event, however often it is cut off. |
| EventFollow.BareGapExactly | internal/api/eventstream.go:160-175 | A follow without a cursor that is cut off before its first message starts over at the newer head: what it receives has a gap after its first head if and only if it received something and a matching event came in between. |
| EventFollow.BareFollowMisses | internal/api/eventstream.go:160-175 | One such run: connect, cut, an event, connect, another event; the first event is never received. |
| EventFollow.ShortPageCatchesUp | internal/api/eventstream.go:184-226 | Once a page comes back short, everything past the base cursor has been written. |
| EventFollow.CutResumes | internal/api/eventstream.go:96-106 | Cutting the bytes of a page anywhere, the next request starts exactly behind the last whole frame. |
| EventFollow.ReadsEvents | internal/api/eventstream.go:282-301 | Of the bytes written for any events, cut anywhere, the reader gets one message for each event that arrived whole: its id in decimal, its type without line breaks, or message when nothing is left, and the event's own body. |
| EventFollow.EventStream.Poll | internal/api/eventstream.go:184-220 | One turn of the loop: the page, its frames in order with the cursor behind them, or a heartbeat. |
| EventFollow.EventStream.Drain | internal/api/eventstream.go:217-219 | Polling on while pages are full writes the whole backlog, each event once. |
| EventFollow.StreamHead | internal/api/eventstream.go:240-255 | The head returned is the newest matching id of the log its last query saw, the log growing between queries; it is still searching only if every page was full. |
| EventFollow.ActivityPageExactly | internal/api/activity.go:243-256 | An activity poll reads on like the event log if and only if its cursor is not 0 or the rows fit one page; from 0 it reads the newest page. |
| ProgressFrames.LastTouchIsNewest | internal/api/progress.go:739-780 | What the specification calls the newest touch of a subject is the event of the batch touching it with the largest id, and exists exactly when some event touches it. |
| ProgressFrames.ResolveIri | internal/api/progress.go:781-790 | Resolving one more IRI merges its newest event into its document's and changes no other attribution. |
| ProgressFrames.NoteDoc | internal/api/progress.go:749-760 | The newer event wins, in whatever order they are noted, and the id is listed once. |
| ProgressFrames.ProgressOrigins | internal/api/progress.go:739-795 | For every batch the recorded origin of each task and document is the newest event touching it, by row id, task list or IRI, whatever order the IRI answer is iterated in; the id lists hold each touched subject once and nothing else. |
| ProgressFrames.AttributionDetermined | internal/api/progress.go:781-790 | The origins and the id sets are the same for every iteration order. |
| ProgressFrames.FramesAttributed | internal/api/progress.go:797-826 | Every frame is about a ref of the project and carries the id, type and time of the newest event that touched its subject. |
| ProgressFrames.FramesTold | internal/api/progress.go:797-826 | One frame for each ref of the project, in order, and none for any other: it repeats the ref's task, plan and specs, with the id, type and arrival of the last event that names its task, or names its document by row or by IRI, or with none of them. |
| ProgressFrames.ProgressFrames | internal/api/progress.go:802-826 | The loop over the refs keeps those of the project, in order, each with the origin of its subject. |
| ProgressFrames.CutShowsAgainExactly | internal/api/progress.go:665-700 | A connection is cut after a frame of a batch: the subject of a later frame is touched again by what is read again if and only if that frame's id is larger. |
| ProgressFrames.CutLosesNothingExactly | internal/api/progress.go:665-700 | A batch loses nothing at any cut if and only if it sends its frames in strictly rising order of their ids. |
| ProgressFrames.CutLosesTask | internal/store/progress.go:641-667 | A batch of two events whose refs come documents first: cut after the document's frame, the task's is lost. |
| ProgressFrames.RereadFirst | internal/api/progress.go:639-694 | Whatever the log has grown to, the part of the batch past the last frame's id comes first in what is read again. |
| ProgressCuts.TellsFrames | internal/api/progress.go:666-674 | What a batch tells is one entry a frame, in order, with the frame's id. |
| ProgressCuts.NothingMissedThroughCuts | internal/api/progress.go:638-700 | Over every run of new events, second transactions, polls, cuts and reconnects from the last frame's id: if no cut falls before a frame whose id is not larger and no second transaction names something new behind the stream, each touch past the start has been told by its frame or a newer one, or is still to come. |
| ProgressCuts.ToldAtTheEnd | internal/api/progress.go:638-700 | Once such a stream has read to the end of the log, every touched subject has been told. |
| ProgressFrames.HoldBack | internal/api/progress.go:645-657 | The batch is cut right before its first GitHub pr or ci delivery that is unapplied and names no task, and nowhere else. |
| ProgressFrames.TouchesCurrentExactly | internal/api/progress.go:638-700 | Whatever the interleaving of new events, second transactions and polls, the events consumed are gap-free and in order; all of them were consumed with the touch the log now shows if and only if no second transaction changed what an event touches after the stream had passed it. |
| ProgressFrames.LateIsUnheld | internal/api/progress.go:644-656 | Only a delivery that is not held back can be overtaken. |
| ProgressFrames.NoHeldTouchLost | internal/api/progress.go:644-656 | As long as late correlations come for held deliveries only, none is lost. |
| ProgressFrames.UnheldCanBeLost | internal/api/progress.go:644-656 | Every unapplied delivery that is not held back has a run that loses what its second transaction names. |
| ProgressFrames.PushTouchLost | internal/hooks/push.go:171-176 | A push whose second transaction names its tasks after a poll has been consumed without them and is not read again. |
| ProgressFrames.StandsStillExactly | internal/api/progress.go:640-657 | A poll that finds events consumes none of them if and only if the first is held back. |
| ProgressFrames.StuckUntilApplied | internal/api/progress.go:645-656 | With a held event next, a run consumes anything if and only if the event's second transaction commits and the stream polls after that. |
| Webhooks.StandsStillUntilApplied | internal/store/events.go:119-187 | With a held delivery next, the stream consumes anything if and only if an apply of it runs and the stream polls after that: a second transaction asked for by a delivery under its id while its repository is mapped commits, or a replay runs while it is mapped. |
| Webhooks.UnmappedHolds | internal/hooks/github.go:203-255 | As long as its repository stays unmapped whenever it is delivered again or replayed, an ignored pr or ci delivery stops the stream, whatever else happens. |
| Webhooks.MappedRedeliveryFrees | internal/store/events.go:153-187 | Once the repository is mapped, a redelivery that is applied frees the stream, whatever type the row was recorded with. |
| Webhooks.IgnoredSticks | internal/hooks/github.go:203-247 | One pull-request delivery of an unmapped repository is recorded as ignored, nothing is asked for, and the stream is stuck on it. |
| MorningBrief.BriefEventsSince | internal/api/morningbrief.go:24-52 | The first 2000 events past the boundary of the log its last query saw, reported truncated if and only if that log holds more. |
| MorningBrief.RoundsShowAllOnce | internal/api/morningbrief.go:19-52 | Fetch-and-review rounds over a growing log show a prefix of the events past the boundary, each once and in order: at least a full page per round of what the first round saw, and everything once a page is not full. |
| MorningBrief.NothingReviewedUnseen | internal/api/morningbrief.go:267-309 | As long as only cutoffs of shown pages are posted, in any order and from any stale page, the boundary never passes an event that was not shown. |
| MorningBrief.PostCoversExactly | internal/api/morningbrief.go:286-300 | While everything reviewed was shown, a post of any value keeps it so if and only if the log holds no event past the largest cutoff any page offered, up to the posted one. |
| MorningBrief.ReviewedWasShownExactly | internal/api/morningbrief.go:262-309 | Over every run of new events, fetches and posts of any value: everything reviewed was shown before if and only if every accepted post met that condition at its time. |
| MorningBrief.UnseenCanBeReviewed | internal/api/morningbrief.go:260-300 | One recorded event and one made-up cutoff: the event is reviewed without ever having been shown. |
| MorningBrief.AssembleMorningBrief | internal/api/morningbrief.go:141-232 | The brief is absent exactly when there is neither open state nor an event; otherwise its groups follow the project order, each with its needs, its outcomes and stops in id order and its routine count, blank ones left out. |
| BriefView.BriefShows | internal/api/morningbrief.go:117-232 | For all inputs: the cutoff is the last event fetched and reviewing is offered exactly when it lies past the boundary; a project has a group if and only if there is an approval, an assigned task or an event of it, in the order given; a group lists exactly its approvals and tasks, its events of the named outcome types and of the named stopping types in id order, and counts the rest. |
| BriefView.BoundaryIsPosted | internal/api/morningbrief.go:262-309 | Over every run the boundary moves only forward, only to a posted value, and past every posted value within the log. |
| MorningBrief.BriefConserves | internal/api/morningbrief.go:186-229 | The groups together count every event attributed to a listed project exactly once. |
| SingleUse.TtlStore.Store | internal/api/mcpoauth.go:428-444 | The loop drops exactly the expired entries, then stores the value under its id. |
| SingleUse.TtlStore.Take | internal/api/mcpoauth.go:448-458 | Returns the unexpired value and spends the id in every case. |
| SingleUse.PurgeInvisible | internal/api/mcpoauth.go:428-458 | Under a monotone clock every take gets the answer a store that never purges would give. |
| SingleUse.TakesExactly | internal/api/mcpoauth.go:428-458 | A take succeeds if and only if the last operation on its id put the value there no more than five minutes ago. |
| SingleUse.TakenOnce | internal/api/mcpoauth.go:446-458 | With fresh ids each stored value is returned at most once. |
| SingleUse.CliCodeStore.Redeem | internal/api/cliauth.go:74-87 | Unknown and expired codes are dropped, a wrong state leaves the code in place, a right one spends it. |
| SingleUse.CliRedeemedOnce | internal/api/cliauth.go:70-87 | After one success no later attempt on the code succeeds. |
| SingleUse.CliRedeemsExactly | internal/api/cliauth.go:59-87 | An attempt succeeds if and only if it presents the state the code was minted with, at most five minutes later, and for the actor it was minted for, whatever wrong attempts came between. |
| SingleUse.WrongStateHarmless | internal/api/cliauth.go:70-87 | An attempt that does not succeed changes the answer of no later operation. |
| ConsentProtocol.AuthorizeRedirectsOnlyRegistered | internal/api/mcpoauth.go:191-231 | An error page exactly for an unregistered client or redirect; every redirect goes to a registered URI; an accepted request meets all conditions and shares its nonce with the login. |
| ConsentRuns.AuthorizeExactly | internal/api/mcpoauth.go:191-238 | Which requests start a login, which error each other one is sent back with, and what the two cookies hold. |
| ConsentRuns.ResourceExactly | internal/api/mcpoauth.go:54-77 | A resource is an origin or its `/mcp`, with any number of slashes behind it, and nothing else. |
| ConsentRuns.CliLoginExactly | internal/api/cliauth.go:230-266 | Which command-line logins start, and what their cookie holds. |
| ConsentProtocol.EndsWell | internal/api/cliauth.go:119-131 | Whatever signed payloads the cookies hold, a callback that ends in a consent or a command-line code was presented with two unexpired cookies signed by one start under one nonce. |
| ConsentProtocol.NextKeeps | internal/api/mcpoauth.go:191-391 | Every step (authorize, plain and command-line login, callback, consent, token, clock, restart) keeps the protocol invariant, over unsigned cookies, cookies presented as one another, replays and failed writes. |
| ConsentProtocol.TokensTraced | internal/api/mcpoauth.go:191-391 | Over every run each MCP token traces to one Allow by the actor of a consent, begun by a callback with the intent cookie of an accepted authorize request and a login cookie of its nonce, with that request's client, redirect, challenge and resource and within every lifetime; no code and no consent yields two tokens. It rests on no client being registered under the empty id. |
| ConsentRuns.TokenFromSteps | internal/api/mcpoauth.go:191-391 | Over every run, told on its requests alone: behind each token stand, in this order, a complete authorize request, a callback with that authorize's intent cookie and login state within ten minutes, an Allow of the consent that callback put up, from the same origin, in a live session of the same actor, within five minutes, and a token request with that code, client, redirect, a verifier of the challenge and an agreeing resource within five more. |
| ConsentRuns.AllowedFromSteps | internal/api/mcpoauth.go:275-332 | Over every run each code recorded as allowed comes from an Allow with that code, of that consent, in that session, at that time. |
| ConsentRuns.CodesAllowed | internal/api/mcpoauth.go:304-326 | Over every run each pending code comes from an Allow with that code; a Deny never mints one. |
| ConsentProtocol.ConsentGenuineExactly | internal/api/mcpoauth.go:150-186 | A pending consent was begun by an authorize's intent cookie if and only if it names a client. |
| ConsentProtocol.CliTokensTraced | internal/api/cliauth.go:119-150 | Each command-line token traces to one callback with two unexpired cookies of one start and was asked for in time with the state its cookie decodes to; the cookie was signed by a command-line login if and only if it decodes to a mode; no code yields two. |
| ConsentRuns.CliTokenFromSteps | internal/api/cliauth.go:119-150 | Over every run, behind each command-line token stand a callback with two unexpired cookies of one nonce and the login's state, and a request within five minutes with that code and the state of the second cookie. |
| ConsentProtocol.CliTokenWithoutCliLogin | internal/api/session.go:147-181 | A run without any command-line login that ends in a command-line token: the login cookie of an authorize decodes as an intent too. |
| ConsentProtocol.ConsentWithoutClient | internal/api/mcpoauth.go:168-186 | The same cookie decoded as an MCP intent begins a consent that names no client. |
| ConsentProtocol.FlowSucceeds | internal/api/mcpoauth.go:191-391 | On any server and whatever other requests come in between, an accepted request that its user carries through, each step within its lifetime, gets its token. |
| ConsentProtocol.OauthServer.FinishLogin | internal/api/cliauth.go:119-150 | An intent cookie ends the login in a consent exactly when it is in time and of the login's nonce, else a command-line cookie does in a code exactly on the same terms, and a web session is what remains; and what each stores. |
| ConsentProtocol.OauthServer.OauthConsent | internal/api/mcpoauth.go:275-332 | A form from the server's own page, in a live session, naming the consent its cookie names, spends that consent, and no other form does; a pending consent of the session's own actor is answered with its redirect and state, by a stored code on Allow and by an error on Deny; anything else is refused, and only Allow changes the codes. |
| ConsentProtocol.OauthServer.OauthToken | internal/api/mcpoauth.go:337-391 | The lookup spends the code whatever comes of it, and refusals before it leave the codes alone; a token is created exactly for a pending code of that client and redirect, with a verifier of its challenge and an agreeing resource, and for the actor who allowed it. |
| BlobStores.BlobServer.UploadBlob | internal/api/blobs.go:258-303 | Poster first, dedup, then object before row, each write failing or not: the two stores end as specified, and an acknowledged upload has its row. |
| BlobStores.BlobServer.StoreObjectThenRow | internal/api/blobs.go:333-351 | A hash whose row is read touches nothing; otherwise the object is written before the row, and an existing row stays as it was. |
| BlobStores.UploadStores | internal/api/blobs.go:268-303 | An upload whose writes succeed has both row and object, and no upload disturbs an existing row. |
| BlobGrace.UploadTold | internal/api/blobs.go:258-303 | An upload writes for its own bytes and its poster's, dated by its own clock, leaves a row that was there as it is, writes nothing for bytes whose row it can read, and touches nothing else. |
| BlobGrace.UploadSurvivesExactly | internal/api/blobgc.go:18-21 | An acknowledged upload outlives every undisturbed sweep within its grace period if and only if its bytes were not known already under an old row that nothing references. |
| BlobGrace.HalfUploadSurvives | internal/api/blobgc.go:18-21 | An object whose row was not written yet outlives every undisturbed sweep within its grace period. |
| BlobStores.RowsKeepObjects | internal/api/blobgc.go:40-105 | Over every run of uploads, references and sweeps, with any write failing before or after it took effect, each row has its object and each reference its row, unless a sweep deletes the object of a row it failed to read. |
| BlobStores.MisreadTakesObject | internal/api/blobgc.go:93-104 | One failed row read in a sweep whose writes all succeed: a referenced blob keeps its row and loses its object. |
| BlobStores.MissingStep | internal/api/blobs.go:275-303 | An object is missing after a step if and only if the step neither uploads its bytes with the row unread and the object written, nor collects the row. |
| BlobStores.MissingLasts | internal/api/blobs.go:275-303 | Over every run it stays missing until such a step; uploads that read the row are answered as stored and restore nothing. |
| BlobStores.SweepSoundExactly | internal/api/blobgc.go:43-104 | A sweep never takes the row of a referenced hash, not even of one referenced after the listing, whatever fails; it leaves every row its object if and only if it does not delete the object of a row it failed to read. |
| BlobStores.SweepCollectsExactly | internal/api/blobgc.go:43-105 | An error-free sweep removes exactly the unreferenced rows past the grace period with their objects, and exactly the row-less objects past it. |
| BlobStores.DryRunForetells | internal/api/blobgc.go:50-98 | What a dry run calls unreferenced or orphaned is exactly what an error-free run right after it deletes. |
| BlobStores.BlobServer.DeleteRow | internal/store/blobs.go:224-239 | The references are checked again with the deletion: a row referenced since the listing stays. |
| BlobStores.BlobServer.SweepRows | internal/api/blobgc.go:50-72 | The first loop deletes rows before objects, leaves what was referenced since the listing, and accounts for every listed hash as deleted, spared or failed. |
| BlobStores.BlobServer.SweepRowHalf | internal/api/blobgc.go:40-71 | Listing, late references and the first loop: the stores end as the first sweep specifies, and an undisturbed run counts every listed row. |
| BlobStores.BlobServer.SweepObjectHalf | internal/api/blobgc.go:73-107 | Listing and the second loop: the stores end as the second sweep specifies, and what was taken for an orphan is listed in full. |
| BlobStores.BlobServer.BlobGc | internal/api/blobgc.go:40-105 | Both loops with their listings: the stores end as specified, the listings are complete, and a dry or error-free run reports no error and counts every deletion once. |
| EffectKeys.ExternalIdsCollideExactly | internal/api/docwatch.go:30-47 | Two effects share an external id if and only if they are the same effect, or one is a note and the other belongs to a rule called "note" on the same event; the two subscribers never share one. |
| EffectKeys.TakenExactly | internal/store/events.go:59-102 | With no rule called "note", RecordEvent finds an id taken exactly when that very effect was recorded. |
| EffectKeys.EffectsAtMostOnce | internal/api/docwatch.go:151-256 | Under any redelivery, reordering and crash, at most one effect per rule and event, one note per event and one link per task and rule is recorded, and none is lost. |
| EffectKeys.AckedCarriesExactly | internal/api/docwatch.go:58-137 | Once a delivery was handled without error, the table carries an effect it decided on, once and whatever is delivered before and later, if and only if no other effect had been recorded under its id before that decision. |
| EffectKeys.AckedMintCarried | internal/api/docwatch.go:151-256 | With the rules deciding, an acknowledged mint or approval is always carried; only a note can lose its id, to a note on another task. |
| EffectKeys.EvaluatedByRule | internal/watcher/doclifecycle.go:84-165 | Whatever is open, each rule decides on its own effect or a suppression, and none is called "note". |
| EffectRules.FirstDelivery | internal/watcher/doclifecycle.go:80-175 | What the first delivery of each kind of document event adds to the table, row by row, for every combination of what is open. |
| EffectRules.StopsAtFailure | internal/api/docwatch.go:126-139 | The decisions of a delivery are carried out up to the first that fails, and none after it. |
| EffectRules.ReconcilesExactly | internal/api/gate.go:131-165 | A spec trailer adds its link if and only if no plan governs the task, the link is not there yet and the transaction commits. |
| EffectKeys.SecondNoteSwallowed | internal/api/docwatch.go:151-175 | Two suppressions of one event that name different tasks leave only the first note. |
| EffectKeys.RedeliveryRecordsExactly | internal/watcher/doclifecycle.go:84-165 | An event handled once and delivered again records something new if and only if a guard changed in between: an open review or approval closed, or a design task opened or closed. |
| EffectKeys.AcceptanceNotedOnItsOwnTask | internal/watcher/doclifecycle.go:127-144 | An acceptance delivered again while the task it minted is open is noted on that task. |
| EffectKeys.NoteSwallowedOnRedelivery | internal/api/docwatch.go:151-175 | An acceptance noted on the open task and delivered again when another task is open is not noted on that one. |
| EffectKeys.RecordsExactly | internal/store/events.go:59-102 | A delivery handled without error records something if and only if it decides on an id not recorded yet. |
| EffectKeys.NoteSwallows | internal/api/docwatch.go:164-176 | A rule called "note" could lose its effect to another rule's note. |
| EffectKeys.Watcher.Record | internal/store/events.go:70-102 | A known external id inserts and applies nothing; a rolled-back transaction leaves no row. |
| EffectKeys.Watcher.HandleDocLifecycle | internal/api/docwatch.go:122-137 | The decisions are performed in order up to the first that fails, and the delivery is acknowledged if and only if none that records fails. |
| EffectKeys.Watcher.HandleSpecReconcile | internal/api/gate.go:131-165 | The link is recorded exactly when no plan governs the task, no row carries its id and the transaction commits, and it is reported exactly when the caller learns so; nothing else changes. |

## Left out

- HTTP, cookies as bytes, HTML, JSON, logging, metrics and OpenAPI reflection: only the values they carry are modelled.
- Evidence and header sentences and the URLs of a concern root (`cockpit_rank.go:285-330`): wording, not ranking. A diagram is a tree here; joining its parts into text is left out.
- The review buckets and the item texts of the inbox: stable sorts by time, without a property of their own.
- Turtle tokenizing: the model starts from tokens. Language tags and datatypes are read and dropped, as the parser does.
- `extract`, `extract_edges` and the generator's rendering (`nsgen.py:327-640`): comprehensions over the triples.
- The reports and the weekly trends of `health.py`, and the rendering of `next_sim.py`.
- Timers and flushes of the streams: a poll happens when a step says so; heartbeats are frames without messages.
- `progress.Resolve` and `ProgressRefs`: their results are inputs; of a ref only that it answers for a touched subject is used.
- The texts of the document rules (`watcher/doclifecycle.go:168-218`): only what they decide on is modelled.
- Resolving relative IRIs (section 5.2 of RFC 3986): the meaning of a document joins base and text, as the parser does.
- The attribution of an event to a project in the brief (`morningbrief.go:88-118`): an input, `""` when there is none.
- Keycloak, token storage, PKCE towards Keycloak, which URIs are loopback redirects, and OAuth discovery metadata.
- Concurrent uploads and sweeps of one hash: each handler of the blob stores is atomic except for its failure points.
- ConcernRanking.CycleDropsRoot: one concrete pass; which terminal roots a pass records is said exactly in `RootCoverage.RecordedExactly`.
- ProgressCuts.NothingMissedThroughCuts: goes one way over runs, because a touch lost by a cut or a late write is told after all when its subject is touched again; each kind of loss is exact in `ProgressFrames.CutShowsAgainExactly` and `ProgressFrames.TouchesCurrentExactly`.
- Webhooks.StandsStillUntilApplied: two second transactions of one delivery at once count as one.
- RootChain.HeldButNotShown: one concrete pass; the exact condition is `RootChain.DiagramShowsExactly`, for cycle-free passes, because on a cycle the memo decides what is filed.
- RdfLists.CollectionsReadBack: for documents that use rdf:first or rdf:rest as verbs only `RdfLists.AcceptsExactlyChains` applies, because hand-written arcs may overwrite a cell.
- ReplayConverges.ProposalSwitchesAtMostOnceMore: compares full drains, because two shorter replays may claim different tasks.
- EventFollow.StreamHead: takes the log as seen by each query in turn; a log that grows by a full page between all queries keeps it searching.
- BlobStores.BlobServer.ListUnreferenced: lists in any order, where the query orders by creation time; every hash is swept independently.
- ConcernRanking.RankConcernRoots: roots are values keyed by id, where the code shares pointers it fills in place.
- BlobGrace.UploadTold: leaves out a video whose poster has the video's own bytes; `BlobStores.UploadStores` covers it.
- TurtleAccepts.AcceptsExactly: says which lists are accepted; what the triples mean is said for the documents of the RDF subset (`TurtleRoundTrip.ParsePrinted`).
