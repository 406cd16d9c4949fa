# Verified model of Aetronyx

Aetronyx runs a coding agent over a specification: it loops between a model and a test suite, records every
step in a signed, hash-linked audit log, streams events to subscribers, and estimates which files a change
touches. This project models those parts in Dafny and proves what they promise.

| file | module | what it models |
|---|---|---|
| `Text.dfy` | `Text` | Go string order, sorting, hexadecimal and decimal text |
| `Utf8.dfy` | `Utf8` | the same order and the same lengths, on bytes |
| `AuditChain.dfy` | `AuditChain` | hash links, hex columns, the declarative meaning of an intact chain |
| `AuditStore.dfy` | `AuditStore` | the `audit_events` table and its two queries |
| `AuditReplay.dfy` | `AuditReplay` | `VerifyRun`, and what each verdict says |
| `EventTypes.dfy` | `EventTypes` | event type names and the actor column |
| `AuditEngine.dfy` | `AuditEngine` | `Emit`, alone and in every interleaving with others |
| `AuditForgery.dfy`, `AuditWitness.dfy` | the same names | what a list that verifies can be, under ideal signatures; reachable states that show which hypotheses are needed |
| `CanonicalJson.dfy` | `CanonicalJson` | the canonical printer, a parser, and the inverse theorem |
| `ContextWindow.dfy` | `ContextWindow` | the evicting prompt context against an offline definition |
| `RunStates.dfy`, `RunScript.dfy` | the same names | the declared status table; one run as a function of its environment |
| `AgentRunner.dfy` | `AgentRunner` | the runner itself, phase by phase, refining the script |
| `RunTrace.dfy`, `RunLaws.dfy`, `RunPrompts.dfy` | the same names | which statuses, rows, model calls, tests and file changes a run requests, and how it ends |
| `RunLanguage.dfy`, `RunEndings.dfy`, `RunWords.dfy` | the same names | the language of audit events, in both directions, and the terminal event of every run |
| `PubSub.dfy` | `PubSub` | the bounded, dropping publish/subscribe bus |
| `RepoGraph.dfy`, `BlastRadius.dfy` | the same names | import edges, impact sets and the loops that compute them |
| `PathContainment.dfy`, `PathRules.dfy` | the same names | the two path validators; what cleaning a path does to it |
| `Migrations.dfy` | `Migrations` | the migration runner |
| `SpecReferences.dfy` | `SpecReferences` | the validator's accumulator and its reference check |

## How the world enters

- SHA-256 is an arbitrary function and the key pair an arbitrary `sign`/`verify` pair. What is assumed of them are
  named predicates that appear only where a theorem needs them: `SignaturesVerify` (a signature made with the key
  verifies), `Ideal` (and for no other input) and `Unforgeable` (no signature in the list at hand verifies for an
  input that was never signed). Collision freedom is never assumed, since it would contradict the size of the digest;
  `NoCrossing` and `DistinctHashes` speak of the payloads that were signed, and are conditions rather than
  assumptions.
- Ids are numbers: a ULID's text order is the order of its 128-bit value. A call inside `Emit` gets an id above
  those stored for its run (`IdAfter`). Database failures are Boolean inputs at every store call.
- A run is a function of a configuration and an environment: clock, cancellation, store answers, model replies,
  tool outcomes and test outcomes are all inputs. The runner's trace lists what it requests, whether or not the
  store grants it.
- Concurrent code is a step machine: goroutines inside `Emit`, and publishers between their snapshot and their
  sends, interleave in any order. Traces are arbitrary finite step sequences.
- Iteration over a Go map is an arbitrary choice.

## Where the code and its documentation part

- The run state table is not consulted by the runner. Five terminal moves are not in it, one of them only under
  an iteration bound below 1 (`RunLaws.OffTable`); all five happen. Every halt is one, and so is completing a
  specification without test contracts (`RunLaws.WhichRunsStayInTable`).
- A wall-time halt writes its status but emits no terminal event; no other run ends without one
  (`RunEndings.TerminalEventOfEveryRun`).
- `Publish` sends outside the lock, so a send can hit a channel closed after the snapshot, which panics
  (`PubSub.PanicReachable`); it cannot happen exactly as long as no channel on a publisher's list is closed.
- An event's id, run, time, type, actor and trace columns are outside its signature (`AuditReplay.MetadataUnprotected`), the
  chain does not protect its own tail (`AuditChain.ChainPrefix`), and payload text is bound only up to its hash.
- Payloads repeat. The planning request of the agent names provider, model and phase alone
  (`internal/agent/loop.go:103-105`) and a tool result names tool, exit code and error alone
  (`internal/agent/loop_iter.go:102-104`), so two runs on one model, and two clean calls of one tool, share a payload.
  Then the verifier accepts a list that follows the one up to the shared payload and the other from there on, and it
  misses the removal of what lies between two equal payloads. Exactly when: `AuditForgery.NoCrossingIsExact` and
  `AuditReplay.RowsRemovable`.
- A failed insert leaves a valid signature behind: an accepted list can end in an event that was signed and
  never stored. It is a prefix of a stored chain exactly when its last event was stored
  (`AuditForgery.AcceptedIsRunPrefix`, `AuditWitness.FailedInsertAccepted`).
- With the workspace at the file system root, both path tests admit the root alone.
- Deduplicated importers do not distribute over unions of patterns; what they lose is stated exactly
  (`BlastRadius.DeduplicatedUnion`).

## Model

| member | source | states |
|---|---|---|
| `AuditChain.HexRoundTrip` | internal/audit/engine.go:92-94 | decoding a hex column gives back the bytes that were encoded |
| `AuditChain.HexEncodeAt` | internal/audit/engine.go:92-94 | a hex column has two lower-case digits a byte, the high half first |
| `AuditChain.HexDecodeAccepts` | internal/audit/replay.go:40-59 | a column decodes if and only if it has an even number of hex digits, of either case, and nothing else |
| `AuditChain.HexDecodeAt` | internal/audit/replay.go:40-59 | each byte is the value of its two digits, the first worth sixteen |
| `AuditChain.GenesisColumn` | internal/audit/chain.go:13 | the hash a run starts from is written as 64 zeros |
| `AuditChain.ComputeSigningInput` | internal/audit/chain.go:109-114 | the first 32 bytes are the previous hash and the last 32 the payload hash |
| `AuditChain.SigningInputInjective` | internal/audit/chain.go:109-114 | a signing input determines both hashes it links |
| `AuditChain.ChainExtend` | internal/audit/replay.go:35-77 | appending an event keeps a chain intact if and only if the event is a sound link after the last payload hash |
| `AuditChain.ChainPrefix` | internal/audit/replay.go:38-77 | every prefix of an intact chain is intact, so truncation is not noticed |
| `AuditStore.AuditTable.InsertAuditEvent` | internal/store/audit.go:26-42 | one row is added, or nothing changes; it fails exactly on a fault or a duplicate key |
| `AuditStore.AuditTable.GetAuditEvents` | internal/store/audit.go:45-79 | returns the run's rows in id order |
| `AuditStore.AuditTable.GetLastAuditEvent` | internal/store/audit.go:83-108 | returns the last element of what GetAuditEvents would return |
| `AuditStore.ListingIsSortedSelection` | internal/store/audit.go:46-53 | the listing is strictly increasing in id and holds exactly the rows of its run |
| `AuditStore.SortedSelectionUnique` | internal/store/audit.go:46-53 | no other list has both properties |
| `AuditStore.ListingAppend` | internal/store/audit.go:26-53 | a row with the largest id of its run goes to the end of that run's listing and changes no other |
| `AuditReplay.VerifyRun` | internal/audit/replay.go:25-80 | the result is the verdict on the run's events: OK means an intact chain, otherwise the first event at which the chain breaks, with the reason of its first failing check |
| `AuditReplay.CheckLink` | internal/audit/replay.go:39-73 | one event passes if and only if it is a sound link, reading hex columns cut or padded to 32 bytes; then its signature verifies for the expected hash followed by the payload's; otherwise the reason is the first failing check |
| `AuditReplay.VerdictUnique` | internal/audit/replay.go:22-80 | a list has exactly one verdict, and it is OK if and only if the list is an intact chain |
| `AuditReplay.FirstBrokenUnique` | internal/audit/replay.go:38-73 | there is one event at which a chain first breaks |
| `AuditReplay.ReasonUnique` | internal/audit/replay.go:39-73 | an event fails for one reason only, the first check that fails |
| `AuditReplay.PayloadTampering` | internal/audit/replay.go:52-63 | rewriting one payload of an intact chain is reported at exactly that event if and only if the payload's hash changes, and otherwise the chain stays intact |
| `AuditReplay.MetadataUnprotected` | internal/audit/replay.go:38-77 | changing ids, runs, iterations, times, types, actors or trace columns never changes whether a list is intact |
| `AuditReplay.SplicedChainAccepted` | internal/audit/replay.go:38-77 | two intact chains through one payload hash can be spliced there and the splice is intact |
| `AuditReplay.JoinIntact` | internal/audit/replay.go:38-77 | the start of one intact chain and the end of another join into an intact chain if and only if the end is empty or both cuts come after the same hash |
| `AuditReplay.RowsRemovable` | internal/audit/replay.go:38-77 | rows can be taken out of an intact chain unnoticed if and only if they are its tail or lie between two places that come after the same hash |
| `AuditEngine.NewRowLinks` | internal/audit/engine.go:71-95 | the row Emit builds is a sound link after the hash it read |
| `AuditEngine.NewRowColumns` | internal/audit/engine.go:80-95 | every column of the row a call writes, the hex columns by what they decode to |
| `EventTypes.ActorColumn` | internal/audit/engine.go:129-140 | the actor is the agent for every event a run of it emits and for four other declared types, and the system for anything else |
| `AuditEngine.PrevHashIsTip` | internal/audit/engine.go:111-126 | on an intact chain the hash Emit reads back is the hash the verifier expects next |
| `AuditEngine.Engine.Emit` | internal/audit/engine.go:53-102 | succeeds exactly when no step fails; appends one row, given column by column, whose signature is over the hash read followed by the hash of the canonical text, or changes nothing; keeps an intact chain intact and never touches another run |
| `AuditEngine.StepListing` | internal/audit/engine.go:53-102 | in any interleaving only a successful insert changes a listing: it appends its own row to its own run |
| `AuditEngine.StepInv` | internal/audit/engine.go:53-126 | every step of any goroutine keeps all chains intact, every row signed for its place, and lock holders' views current |
| `AuditEngine.RunInv` | internal/audit/engine.go:53-126 | the invariant holds in every reachable state |
| `AuditEngine.EveryInterleavingVerifies` | internal/audit/engine.go:53-126 | at every moment of every interleaving of any calls over any runs, whichever steps fail, the only verdict on any run is OK |
| `AuditEngine.MutualExclusion` | internal/audit/engine.go:55-57 | no two goroutines are inside Emit for the same run |
| `AuditEngine.CallIsAtomic` | internal/audit/engine.go:53-102 | between a call's lock and its unlock its run's chain grows by that call's own row if the call succeeds and not at all if it fails |
| `AuditForgery.AcceptedIsSignedWalk` | internal/audit/replay.go:35-79 | every adjacent pair of an accepted list was linked by some Emit, starting at genesis |
| `AuditForgery.AcceptedFollowsRun` | internal/audit/replay.go:35-79 | when no histories cross, an accepted list reads like the first rows of one run, then one event signed for the next place |
| `AuditForgery.NoCrossingIsExact` | internal/audit/replay.go:35-79 | in every state the invariant allows, and so in every reachable one, and under an ideal key: all accepted lists follow some run if and only if no histories cross, a condition on the signings made and the rows stored |
| `AuditForgery.DistinctNeverCross` | internal/audit/engine.go:71-78 | signed payloads with distinct hashes, none of them genesis, never cross |
| `AuditForgery.LinkedPayloadsAccepted` | internal/audit/replay.go:35-79 | any list of payloads whose links were all signed, by whichever calls, can be written as a list that is accepted |
| `AuditForgery.PrefixMeansStored` | internal/audit/engine.go:97-101 | a list reads like the beginning of a stored chain if and only if it follows some run whose signing for the last place was stored; no assumption on hashes |
| `AuditForgery.AcceptedIsRunPrefix` | internal/audit/engine.go:59-97 | in every reachable state in which no histories cross, an accepted list is, hash by hash, the first rows of one run and then a signed event; it is a prefix of a stored chain if and only if such an event was stored, and with distinct hashes there is only one candidate |
| `AuditForgery.RepeatedPayloadAdmitsSplice` | internal/audit/replay.go:35-79 | without distinct hashes this fails: two chains sharing one payload give an accepted list that is a prefix of neither |
| `AuditWitness.FailedInsertAccepted` | internal/audit/engine.go:77-99 | a concrete trace in which a call signs and fails to insert: the list ending in its event is accepted, with distinct hashes and nothing forged, and is a prefix of no run |
| `AuditWitness.UnstoredVerifies` | internal/audit/engine.go:77-99 | from any reachable state a call can fail after signing, and its run's chain with the event it did not store verifies |
| `AuditWitness.EmitAll` | internal/audit/engine.go:53-102 | any payloads can be emitted as a run: a sequence of calls stores exactly their chain |
| `AuditWitness.CrossingHappens` | internal/audit/replay.go:35-79 | a concrete trace, under an ideal key, that stores two runs sharing one payload: their histories cross, and their splice is accepted, consists of stored rows, and follows no run even up to its last event |
| `AuditWitness.SharedStartNeverCrosses` | internal/audit/replay.go:35-79 | a concrete trace in which two runs begin with the same payload: hashes repeat and no histories cross |
| `CanonicalJson.CanonicalValue` | internal/audit/chain.go:26-54 | succeeds exactly when nothing in the tree is refused, and then writes the canonical text |
| `CanonicalJson.CanonicalMap` | internal/audit/chain.go:56-84 | writes the canonical text of a map whatever order the runtime yields its keys in: its keys, each once, in ascending lexicographic order |
| `CanonicalJson.MapKeys` | internal/audit/chain.go:57-60 | every key of the map once, in an order of the runtime's choosing |
| `CanonicalJson.CanonicalArray` | internal/audit/chain.go:86-101 | writes the canonical text of an array |
| `CanonicalJson.CanonicalJSON` | internal/audit/chain.go:17-23 | returns the canonical text of any argument, the Payload type going through the standard encoder |
| `CanonicalJson.EscapeCharRoundTrip` | internal/audit/chain.go:40-44 | section 7 of RFC 8259 unescaping undoes the escape of any character, HTML escaping on or off |
| `CanonicalJson.EscapeLaw` | internal/audit/chain.go:40-44 | which characters are written as themselves, which as two characters and which as six, with and without HTML escaping |
| `CanonicalJson.UnicodeValue` | internal/audit/chain.go:40-44 | the four hex digits of a six-character escape are the character's number |
| `CanonicalJson.StringRoundTrip` | internal/audit/chain.go:69-74 | a quoted string reads back as itself, whatever follows it |
| `CanonicalJson.ValueRoundTrip` | internal/audit/chain.go:26-101 | the parser recovers a tree of any depth from its canonical text, whatever follows it |
| `CanonicalJson.ParseUndoesRender` | internal/audit/chain.go:17-101 | parsing the canonical text of a tree gives the tree |
| `CanonicalJson.RenderInjective` | internal/audit/chain.go:15-23 | different trees have different canonical texts, even across the two encoders |
| `CanonicalJson.PayloadRecoverable` | internal/audit/engine.go:65-72 | payload_json determines the payload, whichever encoder wrote it |
| `CanonicalJson.CanonicalKeyOrder` | internal/audit/chain.go:57-61 | the keys of a canonical text are those of the map, in ascending lexicographic order |
| `CanonicalJson.CanonicalTextOfKeys` | internal/audit/chain.go:56-84 | whatever list holds the keys of a map in ascending order, the text is the fields along that list |
| `CanonicalJson.FieldText` | internal/audit/chain.go:66-82 | a field is its quoted key, a colon and its value |
| `CanonicalJson.ValueText` | internal/audit/chain.go:40-44 | a string with nothing to escape is written verbatim between quotes; markup in it stays |
| `CanonicalJson.ArrayText` | internal/audit/chain.go:86-101 | adding an element to an array adds a comma and its text before the closing bracket |
| `CanonicalJson.PlanningRequestText` | internal/agent/loop.go:103-105 | the text of a planning request, character by character: model, phase, provider |
| `CanonicalJson.MarkupInKeys` | internal/audit/chain.go:15-23 | one map with markup in a key has two texts, one from each encoder |
| `Text.SortStrings` | internal/audit/chain.go:57-61 | the sorted keys are a permutation of the input in which every earlier one precedes every later one lexicographically |
| `Text.SortedListingUnique` | internal/audit/chain.go:61 | a set of strings has one sorted listing, so map order is forgotten |
| `Text.LessIsLexicographic` | internal/audit/chain.go:61 | one string is less than another if and only if they agree up to a place where the first ends or has the smaller character |
| `Utf8.PrecedesIsByteOrder` | internal/audit/chain.go:61 | that is the order of their UTF-8 bytes, which is the one Go sorts by |
| `Utf8.ByteLengthIsSize` | internal/agent/context.go:35 | the byte length the token estimate divides is the length of the UTF-8 encoding |
| `ContextWindow.ContextBuilder.Add` | internal/agent/context.go:34-49 | the entry added has the given title and content, a token for every four bytes and one at least; after any calls the entries are what one eviction over everything added would leave, and the token count is their sum |
| `ContextWindow.ContextBuilder.EvictIfNeeded` | internal/agent/context.go:52-62 | the eviction loop reaches the first cut that fits |
| `ContextWindow.ContextBuilder.OldestUnpinnedIdx` | internal/agent/context.go:65-72 | the first unpinned position, or -1 when all are pinned |
| `ContextWindow.ContextBuilder.Build` | internal/agent/context.go:75-81 | the entries rendered in order |
| `ContextWindow.KeptIsLongestFittingSuffix` | internal/agent/context.go:51-62 | what is kept is, in original order, all pinned entries and the longest suffix of the unpinned ones that fits with all pinned tokens, empty if none does |
| `ContextWindow.NoFitGrows` | internal/agent/context.go:47-62 | a cut that does not fit never fits later, which is why evicting early loses nothing |
| `ContextWindow.EvictOne` | internal/agent/context.go:55-60 | removing the oldest unpinned entry moves the cut just past it |
| `ContextWindow.WithinLimitUnlessPinnedOnly` | internal/agent/context.go:54-58 | the kept tokens are within the limit unless only pinned entries remain |
| `ContextWindow.PinnedHeadStaysFirst` | internal/agent/context.go:39-62 | two pinned entries added first stay first and single while nothing else is pinned |
| `ContextWindow.BytesWithinLimit` | internal/agent/context.go:34-62 | the limit in bytes: what is kept comes to at most four times the limit and three bytes an entry, unless only pinned entries remain |
| `ContextWindow.TooBigIsEvicted` | internal/agent/context.go:47-62 | an unpinned entry of four bytes more than four times the limit does not survive its own addition |
| `ContextWindow.RenderedInOrder` | internal/agent/context.go:75-81 | the prompt is the entries' sections one after the other, each a heading with the title and then the content |
| `AgentRunner.Runner.EngineRun` | internal/agent/engine.go:84-131 | a whole run requests exactly the scripted actions |
| `AgentRunner.Runner.Run` | internal/agent/loop.go:30-51 | the five phases and their failure and cancellation exits |
| `AgentRunner.Runner.PhaseBlastRadius` | internal/agent/loop.go:55-86 | skipped without files; otherwise one status and, unless a step fails, one event |
| `AgentRunner.Runner.PhasePlanning` | internal/agent/loop.go:89-140 | the planning requests, and the context started with spec, plan and instructions |
| `AgentRunner.Runner.PhaseIterate` | internal/agent/loop.go:143-178 | the iteration loop over a mutable context does what the script says from the context's entries at the start |
| `AgentRunner.Runner.RunOneIteration` | internal/agent/loop_iter.go:21-80 | one iteration's requests, with the prompt as kept when it began, and the entries its tools add |
| `AgentRunner.Runner.DispatchBlocks` | internal/agent/loop_iter.go:62-69 | the tool blocks of a reply dispatched in order, with an error entry for each malformed one |
| `AgentRunner.Runner.DispatchToolUse` | internal/agent/loop_iter.go:83-119 | the call, its result and its file events, and the entry added unless the input is malformed |
| `AgentRunner.Runner.PhaseVerify` | internal/agent/loop_iter.go:155-172 | passes exactly when every contract passes; otherwise the feedback lists every failure in order |
| `RunLaws.StatusMovesOfEveryRun` | internal/agent/states.go:26-79 | a run whose row and run.created were written requests one terminal status, last, every other move is in the table, and the terminal one is in it or is one of five listed moves; any other run requests no status at all |
| `RunLaws.WhichRunsStayInTable` | internal/agent/states.go:26-53 | all moves are in the table if and only if the run fails, is cancelled, or completes with test contracts |
| `RunLaws.OffTableMovesHappen` | internal/agent/loop.go:158-177 | each of the five moves outside the table ends some run, four of them under a bound of at least 1 |
| `RunLaws.IterationsNumberedFromOne` | internal/agent/loop.go:145-167 | iteration rows are numbered 1 to k, k at most the bound, and row n is requested if and only if iteration n begins and its status is written |
| `RunLaws.RowsWithinBudget` | internal/agent/loop.go:145-151 | how many rows a run requests at most: a positive budget; without one the configured number, where zero means one and a negative number none |
| `RunLaws.RowsOfIterationHalt` | internal/agent/loop.go:145-177 | a run that halts on its iterations has requested exactly that many rows |
| `RunLaws.RowsCompleted` | internal/agent/loop_iter.go:71-74 | row n is completed, once and in order, if and only if iteration n begins and goes through |
| `RunLaws.ModelCalls` | internal/agent/loop_iter.go:45-54 | the model is called once for the plan if planning gets that far and once for each iteration whose row is stored, in order, at most bound plus one times |
| `RunLaws.RowNumbersUnique` | internal/store/migrations/0001_init.sql:25-39 | the i-th row request carries number i, so UNIQUE(run_id, iter_number) is never violated |
| `RunLaws.OutcomeOfEveryRun` | internal/agent/loop.go:30-178 | for each of the five outcomes the condition on configuration and environment under which a run ends in it, if and only if |
| `RunLaws.OutcomesSpelledOut` | internal/agent/loop.go:30-178 | the outcome in terms of the environment alone: which phase failed or was cancelled, and completion exactly at the first iteration that goes through with every contract passing |
| `RunStates.TransitionTable` | internal/agent/states.go:26-79 | the table, move by move |
| `RunPrompts.ProbesOfEveryRun` | internal/agent/loop_iter.go:45-172 | which model calls, tool requests and test commands occur in a run: iteration n asks with what the window keeps of everything added before it, and if it goes through it requests what each tool of the reply causes and runs every contract; nothing else is asked, requested or run |
| `RunPrompts.TestsOfEveryRun` | internal/agent/loop_iter.go:161-167 | the list of test commands of a run: for each iteration that goes through, in order, contracts 0 to the last once each, with their outcomes |
| `RunPrompts.PromptsKeepSpecAndPlan` | internal/agent/loop.go:133-138 | every iteration's prompt begins with the spec and plan entries, holds no other pinned entry, and is within the limit unless it holds only those two |
| `RunPrompts.PromptBytes` | internal/agent/context.go:34-62 | every prompt holds entries as Add makes them, and comes to at most four times the limit in bytes and three an entry, unless it is the spec and the plan alone |
| `RunPrompts.StartingEntriesMean` | internal/agent/loop.go:133-138 | title, content and pin of every entry the context starts with |
| `RunPrompts.ToolEntryMeans` | internal/agent/loop_iter.go:83-119 | title and content of the entry a tool use adds, in each of its four cases |
| `RunPrompts.BlocksInOrder` | internal/agent/loop_iter.go:62-69 | requests and entries of a reply come block by block in its order, and text blocks contribute none |
| `RunPrompts.FeedbackIsLast` | internal/agent/loop.go:165-175 | an iteration whose verification fails adds its tools' entries and then the feedback under its number |
| `RunPrompts.FeedbackMeans` | internal/agent/loop_iter.go:161-171 | the feedback is a heading and the reports of exactly the contracts that failed, in order |
| `RunPrompts.JoinConcat` | internal/agent/loop_iter.go:171 | a separator stands between any two reports and nowhere else |
| `RunPrompts.FileChangesOfEveryRun` | internal/agent/loop_iter.go:122-152 | the file changes recorded are the files the write events name, one for one and in order |
| `RunEndings.EndOfEveryRun` | internal/agent/loop.go:181-217 | a run ends with its terminal status and that status's event, or with the status alone on a wall-time halt; nothing terminal comes before, and the status is the one the environment determines |
| `RunEndings.TerminalEventOfEveryRun` | internal/agent/loop.go:181-217 | the terminal event is the last one and matches the terminal status; there is none if and only if the run halts on time |
| `RunEndings.SilentHalt` | internal/agent/loop.go:159-160 | a concrete run that halts on time and emits no terminal event |
| `RunEndings.EventsOfEveryRun` | internal/agent/loop.go:55-217 | every run's events are a word of the language, which stops between iterations if and only if the run halts on time; a run that was not created emits run.created at most |
| `RunWords.EveryWordIsARun` | internal/agent/loop_iter.go:21-152 | every word of the language is the event list of some run, so the language is exact |
| `RunLanguage.TerminalEventIsLast` | internal/agent/loop.go:181-217 | a terminal event can only be the last event |
| `RunLanguage.CreatedIsFirst` | internal/agent/engine.go:121-128 | run.created is the first event and no other |
| `RunLanguage.ResultFollowsCall` | internal/agent/loop_iter.go:83-104 | a tool result directly follows the call of the same tool |
| `RunLanguage.FileEventFollowsResult` | internal/agent/loop_iter.go:106-115 | a file event directly follows the result of the tool that causes it |
| `RunLanguage.CompletionHasOpener` | internal/agent/loop_iter.go:41-79 | an iteration.completed has its own iteration.started before it with only model, tool and file events between |
| `PubSub.StepInv` | internal/server/events_bus.go:28-73 | every step keeps the registration, channel, publisher and flow invariants |
| `PubSub.DeliveryLaw` | internal/server/events_bus.go:28-43 | sends made are received, buffered or dropped; the buffer is within 1000; what got through is a subsequence of each publisher's messages in publish order |
| `PubSub.NothingLostUnlessDropped` | internal/server/events_bus.go:34-42 | without drops a subscriber has or will read every message due to it from an idle publisher, in order |
| `PubSub.DropOnlyWhenFull` | internal/server/events_bus.go:35-41 | a drop happens only in a send that finds the buffer full, and leaves the buffer as it was |
| `PubSub.DueAtSubscribers` | internal/server/events_bus.go:29-32 | a publish is due at exactly the open channels of its run |
| `PubSub.RegistrationLaw` | internal/server/events_bus.go:48-70 | registered channels are distinct, open and of their run; no run maps to an empty list; a channel is closed at most once, and is closed exactly when it is not registered |
| `PubSub.UnsubscribeLaw` | internal/server/events_bus.go:55-70 | unsubscribing removes that channel only, keeps the others in order, and the second call changes nothing |
| `PubSub.PanicNeedsLateClose` | internal/server/events_bus.go:28-63 | every panic has its cause: an unsubscribe that closed the channel while it was on the sender's list, after the snapshot and before the send |
| `PubSub.PanicReachable` | internal/server/events_bus.go:28-43 | a concrete run in which that happens |
| `PubSub.QuietRunsNeverPanic` | internal/server/events_bus.go:34-63 | a run is free of panics and of channels that could cause one if and only if no unsubscribe so far closed a channel on a publisher's list |
| `PubSub.EventBus.Unsubscribe` | internal/server/events_bus.go:55-70 | the search and splice refine the unsubscribe step |
| `PubSub.EventBus.Publish` | internal/server/events_bus.go:28-43 | the snapshot and the send loop refine the publish step and its sends |
| `PubSub.SendAllEffect` | internal/server/events_bus.go:34-42 | a send loop over distinct open channels attempts each once and changes no other |
| `PubSub.PublishReachesSubscribers` | internal/server/events_bus.go:26-43 | an uninterrupted publish offers its message once to every subscriber of the run and to nobody else |
| `RepoGraph.ResolveImport` | internal/repo/graph.go:101-134 | whatever the map order, the result is a candidate of the first kind that has any, or empty when there is none |
| `RepoGraph.PickNode` | internal/repo/graph.go:114-131 | a walk in any order finds a path with the property if there is one |
| `RepoGraph.NamedMeans` | internal/repo/graph.go:126-131 | the last lookup compares the import with the file's name without directory and extension |
| `RepoGraph.StripModuleMeans` | internal/repo/graph.go:102-106 | the module's own path is taken off an import, only in front of a slash |
| `RepoGraph.InDirectoryMeans` | internal/repo/graph.go:113-120 | which files count as inside the directory an import names |
| `RepoGraph.Graph.AddImportEdges` | internal/repo/graph.go:89-98 | every edge added joins two distinct known files for an import of the first, and no import that must appear is missing |
| `RepoGraph.Graph.AddEdgesOf` | internal/repo/graph.go:91-96 | the edges of one file: each an import edge, and no import that must appear is missing |
| `BlastRadius.ExpandGlobs` | internal/repo/blast.go:87-102 | the files matched by some pattern |
| `BlastRadius.MatchesMeans` | internal/repo/blast.go:91-98 | a pattern matches what the glob matches and every path that ends in it |
| `BlastRadius.TestFileMeans` | internal/repo/blast.go:185-188 | a test file has _test in its name or begins with test_, whatever its directory |
| `BlastRadius.FindImporters` | internal/repo/blast.go:105-113 | the sources of import edges into the set |
| `BlastRadius.FindImportees` | internal/repo/blast.go:116-124 | the targets of import edges out of the set |
| `BlastRadius.ImportsImpacted` | internal/repo/blast.go:173-179 | whether some import edge leads from the file into the impacted set |
| `BlastRadius.FindRelevantTests` | internal/repo/blast.go:163-182 | each test file that is impacted or imports an impacted file, once |
| `BlastRadius.ToFileImpacts` | internal/repo/blast.go:191-213 | the known files of a set, each once, with their facts |
| `BlastRadius.FileFacts` | internal/repo/blast.go:191-213 | what is reported of a file: its language, its size, the reason, and the names of its exports in order |
| `BlastRadius.ExportsMean` | internal/repo/blast.go:199-203 | the exports are the symbols of kind export, in order |
| `BlastRadius.Dedup` | internal/repo/blast.go:216-224 | the entries whose path is not excluded, in order |
| `BlastRadius.WithoutLists` | internal/repo/blast.go:72-74 | deduplication turns a listing of a set into a listing of the set without the excluded paths |
| `BlastRadius.CollectExportedSymbols` | internal/repo/blast.go:127-141 | the exported symbols of the direct files, file by file in some order |
| `BlastRadius.FindSymbolCallers` | internal/repo/blast.go:144-160 | for each symbol the sources of the call edges to it, in edge order |
| `BlastRadius.CallersMean` | internal/repo/blast.go:144-160 | the callers are the sources of edges of kind calls to the name, edge by edge |
| `BlastRadius.SymbolsHaveNoCallers` | internal/repo/blast.go:64-66 | on a graph built from imports every symbol is reported without callers, and how many are reported does not depend on map order |
| `BlastRadius.ComputeBlastRadius` | internal/repo/blast.go:49-84 | the report lists the declarative sets without repetition, importers and importees outside the direct set, and the symbols with their callers; its counts are the lengths |
| `BlastRadius.ListingSize` | internal/repo/blast.go:76-82 | a listing has as many entries as its set has members |
| `BlastRadius.CountsAreCardinalities` | internal/repo/blast.go:76-82 | on a graph built from imports the counts are the sizes of the deduplicated sets, disjoint from the direct set |
| `BlastRadius.EdgesStayInside` | internal/repo/blast.go:193-197 | no importer or importee lacks a node, so no file is dropped |
| `BlastRadius.ImpactUnion` | internal/repo/blast.go:86-182 | the impacted files and relevant tests of A followed by B are the unions of those of A and of B |
| `BlastRadius.DeduplicatedUnion` | internal/repo/blast.go:72-74 | after deduplication the union loses exactly the files the combined patterns match directly |
| `PathContainment.TestsAgree` | internal/agent/apply.go:30 | the two string tests are equivalent on any strings |
| `PathContainment.ContainmentIsByComponents` | internal/agent/tools.go:90-92 | both string tests hold if and only if the workspace's components begin the target's; a root workspace admits the root alone |
| `PathContainment.DispatcherIsStricter` | internal/agent/tools.go:71-99 | the dispatcher accepts exactly the writable paths without ".git" or ".aetronyx" in their text; both reject the same paths as empty or outside |
| `PathContainment.WriteProtectsTopComponent` | internal/agent/apply.go:12-48 | the write validator's answer in terms of components: it protects the first one below the workspace |
| `PathContainment.RenderedPrefix` | internal/agent/apply.go:30-32 | string prefix with a closing slash is component prefix |
| `PathRules.DoubledSlash` | internal/agent/tools.go:77-92 | cleaning: two slashes are one |
| `PathRules.DotComponent` | internal/agent/tools.go:77-92 | a dot component is nothing |
| `PathRules.NameAndBack` | internal/agent/tools.go:77-92 | a name followed by the step back out of it is nothing |
| `PathRules.RootParent` | internal/agent/tools.go:77-92 | the parent of the root is the root |
| `PathRules.TrailingParts` | internal/agent/tools.go:77-92 | the same three at the end of a path |
| `PathRules.RenderedIsClean` | internal/agent/tools.go:77-92 | a rooted list of real names is its own cleaning, and appending a name appends a component |
| `PathRules.ClimbLeads` | internal/agent/apply.go:17-32 | a path of k steps up and then down some names leads k components up from the workspace and down those names, no further up than the root |
| `PathRules.ClimbingOut` | internal/agent/apply.go:17-32 | below a workspace that is not the root, both validators answer that such a path is outside if and only if it does not first go down again the way it came up |
| `PathRules.TraversalRefused` | internal/agent/agent_test.go:81-87 | two paths leading out of /w are refused by both, from any directory |
| `Migrations.Database.RunMigrations` | internal/store/db.go:71-145 | one opening does what the declarative loop over the sorted versions does, rolling back the migration that fails |
| `Migrations.LoopAdvances` | internal/store/db.go:94-144 | from a reached prefix an opening moves to a longer prefix, and succeeds if and only if no check of an applied version and no step of a pending one fails |
| `Migrations.AlwaysAPrefix` | internal/store/db.go:71-145 | after any openings the recorded versions are a prefix of the list and each took effect exactly once, in order |
| `Migrations.SuccessIsFinal` | internal/store/db.go:109-111 | a successful opening leaves all migrations applied and later openings change nothing |
| `Migrations.MigrationList` | internal/store/db.go:89-100 | the versions an opening works through are those of the .sql files, each once, in the lexicographic order of the file names |
| `Migrations.VersionMembers` | internal/store/db.go:89-100 | a version is listed if and only if its name with .sql is a file |
| `SpecReferences.CheckIsValidity` | internal/spec/validator_rules.go:92-113 | a reference raises no error if and only if it is a decimal index, of any number of digits, into one of the two lists |
| `SpecReferences.PrintedIndexAccepted` | internal/spec/validator_rules.go:19 | the printed form of every index in range is accepted |
| `SpecReferences.ReferencesWritten` | internal/spec/validator_rules.go:89-113 | the two references as they are written, acceptance_criteria[n] and invariants[n]: accepted if and only if n is in range of its own list |
| `SpecReferences.OneReading` | internal/spec/validator_rules.go:19 | a reference has one reading |
| `Text.ValueOfConcat` | internal/spec/validator_rules.go:92-113 | the digits of an index count by their place, in base ten |
| `SpecReferences.ValidationResult.Add` | internal/spec/validator.go:17-24 | a finding goes to the list of its severity, and OK stays equivalent to an empty error list |
| `SpecReferences.ValidationResult.CheckTestContractReferences` | internal/spec/validator_rules.go:89-116 | adds the findings of every reference of every contract, in order |
| `SpecReferences.Validate` | internal/spec/validator.go:15-43 | OK if and only if there are no errors; errors and warnings are the fatal and other findings in order |
| `SpecReferences.OkMeansReferencesValid` | internal/spec/validator_rules.go:89-116 | no errors if and only if no other rule reported a fatal finding and every reference is valid |

## Left out

- SQLite, SQL text, files, HTTP, processes, signals and telemetry: the event table is a list of rows, and a failed
  statement is a Boolean input. An insert or commit that takes effect and still reports an error is not modelled.
- Invalid UTF-8: text is a sequence of Unicode scalar values. Its byte order and byte length are proved to be those of
  its UTF-8 encoding; text that is not valid UTF-8, which the encoder replaces, is outside the round trip.
- Go values other than string-keyed maps, slices and scalars in the canonical encoder. Number formatting is given:
  a number is its token. A Payload nested inside another value is modelled as a plain map; the program leaves
  <, > and & in its keys unescaped.
- The standard encoder: modelled as the same printer with HTML escaping off for keys.
- Two engines over one store: the per-run lock is per process, so the interleavings are those of one engine.
- AuditEngine.Engine.Emit: does not take the per-run lock itself, because one method call has nobody to wait for;
  the lock is in the step machine, where the same call is `AuditWitness.OneCall`.
- The runner's return values and log lines, the texts of plans and reports, and file contents; the script names
  only what steers the run. Cost totals, which the last write overwrites, and `before_hash`, which is read after the
  write, have no law worth stating.
- Whether a requested status was stored: cancellation writes through a context that is already cancelled and the
  error is ignored. The laws are about requests.
- The 70% limit is computed in floating point by the caller; the limit is an input.
- filepath.Match, tree-sitter parsing and the graph cache: match results and imports are inputs.
- The working directory can be missing, in which case filepath.Abs fails; here it is an input path.
- What writeFile does on disk, and symbolic links: both validators are lexical.
- SpecReferences.Validate: takes the findings of the other fourteen rules as inputs and does not fill Computed,
  because those rules look up files, services and commands or compare one field with a constant. Message texts are
  shortened to their kind.
- Provider adapters, configuration layering, templates and command line: no state worth an invariant.
