# Cofiswarm dispatch, verified

A Dafny model of the stateful and algorithmic parts of the dispatch service, with proofs of what they
promise. Each module models one component; text is a sequence of bytes, and Go maps are lists of
entries in the order one iteration happens to visit them, with lemmas that the order does not show.

- **Server-sent events** (`SseStream`, `SseDrainer`, `SseWriter`, `SseText`): the incremental parser
  with its carried buffer, the read loop, the writer of the same wire format, and what a stream says. As
  in the code every `data:` line is a payload of its own and only LF ends a line, which differs from
  section 9.2.6 of the HTML Standard. JSON decoding is a function from payload to optional delta.
- **Agent calls** (`StopTokens`, `AgentClient`, `AgentCalls`): stripping leaked template tokens, and the
  retry and fallback machine, for every sequence of replies.
- **Working memory** (`Importance`, `RunScores`, `SessionText`, `Compaction`, `Eviction`, `EvictionById`,
  `Summary`, `SummaryRolls`, `SessionStore`, `SessionHistory`, `SummaryHistory`, `Continuation`,
  `ContinuationBounds`, `ContinuationSections`, `NoteCuts`): ranking, trimming, greedy eviction under a
  byte budget, the rolling summary, the store over whole histories, and follow-up prompts.
- **Synthesis** (`PromptBudget`, `Allocation`, `AssembleFit`, `AssembleBounds`, `AssembleExact`,
  `AssembleAscii`, `SynthesisPrompt`, `PromptExact`, `PairwiseReduction`, `PromptContents`): budgets,
  proportional allocation, assembly in place, tournament reduction.
- **Reflection** (`Reflection`, `Cursor`, `ReflectionScheduler`, `ReflectionRuns`, `ReflectionPrompt`): the
  log, the pass, the prompt, the cursor file and the tick as code, and every interleaving of the tick's steps with
  appends by others.
- **Broadcast** (`Broadcast`, `BroadcastAgents`, `BroadcastDelivery`, `BroadcastThreads`,
  `BroadcastProjection`, `BroadcastDeadlines`, `BroadcastRefusal`): the C++ coordinator's
  agent threads, frame queue and writer, as programs and as interleaved steps.
- **Foundations** (`Wrappers`, `Bytes`, `Utf8`, `Sequences`, `Sorting`): byte strings, well-formed UTF-8
  after section 4 of RFC 3629, `ToValidUTF8` as deletion of what is not well-formed, sorting.

`dafny verify dfyconfig.toml` checks everything. Code that changes state is a class or a method with
loops, proved against a function of the old state; what that function promises is proved in lemmas.

Where the code and its comments differ, the model follows the code and proves how far the comment holds:

- `internal/synthesis/tiered.go:63-66` stops only after round 65, not 64, so no block is lost up to
  2 to the 65th blocks, and some are beyond (`PairwiseReduction.CapLosesNothingIff`).
- `internal/synthesis/assemble.go:8-10` promises a result no longer than `maxTotal` that preserves the
  footer. For well-formed text both hold exactly when nothing has to be cut: in the trim branch the
  markers make the whole too long again, so its end is cut off and a marker put behind it
  (`AssembleExact.WithinBudgetIff`, `AssembleExact.FooterKeptIff`, `PromptExact.PromptPromisesKeptIff`; a
  prompt that breaks both is in `PromptExact.LongContributionBreaksPromises`). Text that is not
  well-formed can fit after all (`AssembleExact.IllFormedCanFit`).
- `internal/session/compaction.go:49-50` promises that the latest run is never dropped and the budget
  met. Dropping is by id, and ids come from requests or a millisecond clock, so they may be empty or
  repeated; `EvictionById.LatestKeptAt` and `EvictionById.BudgetMetAt` say
  exactly when the promises hold for the runs and the target of a call, `EvictionById.LatestKeptIff` and
  `EvictionById.BudgetKeptIff` for which runs they hold whatever the target, and `EvictionById.RepeatedIdLosesNewest` and
  `EvictionById.EmptyIdExceedsBudget` are sessions that break them. What depends on distinct ids says so.
- `internal/reflect/pass.go:47` keeps the cursor on a transient failure, but every error of `Reflect` is
  the unusable kind, so a pass always moves on (`Reflection.Pass`).
- `internal/session/context.go:84` raises the compaction flag for a note by its bytes alone, so notes cut
  by their number of lines go unreported: `NoteCuts.CutNoteGoesUnreported` is such a session, and
  `NoteCuts.UnusedMeansWholeNotesIff` says exactly when an unused flag is right about the notes.
- `internal/reflect/scheduler.go:112-114` expects a window to repeat after a restart when saving fails. The
  file is read in every tick, so it repeats in the next one; and a cursor file that exists and cannot be
  read counts as 0, so that tick sends the whole log again (`ReflectionRuns.FailedSaveRepeats`).
  `ReflectionRuns.ExactlyOnceIff` says exactly when nothing is sent twice.

## Model

| member | source | states |
|---|---|---|
| SseDrainer.Drainer.constructor | internal/agent/stream_sse.go:14-24 | A new drainer has an empty buffer, no text, no last payload and is not done. |
| SseDrainer.Drainer.Feed | internal/agent/stream_sse.go:27-38 | Feeding a chunk processes exactly the complete frames of buffer plus chunk; afterwards the buffer holds no blank line and the accumulated text is what `onChunk` was given. |
| SseDrainer.Drainer.Flush | internal/agent/stream_sse.go:41-46 | The end of the stream treats what is left in the buffer as one last frame and empties the buffer. |
| SseDrainer.Drainer.ProcessFrame | internal/agent/stream_sse.go:48-75 | A frame acts line by line: `data:` lines only, white space trimmed, `[DONE]` sets the flag, every other payload becomes the last payload and its delta, if any, goes to text and callback together. |
| SseDrainer.DrainStream | internal/agent/stream.go:79-100 | The callback gets the deltas of the reads made before an error or `[DONE]`, and the text returned is those deltas put together and cut at the stop tokens, hence a prefix of them. |
| SseStream.CutIsLossless | internal/agent/stream_sse.go:27-38 | Cutting at blank lines loses nothing: the frames, each with its blank line, and the rest are the input. |
| SseStream.CutIsComplete | internal/agent/stream_sse.go:27-38 | What stays buffered holds no blank line, and no frame does. |
| SseStream.CutIsUnique | internal/agent/stream_sse.go:27-38 | There is only one way to take a byte stream apart into such frames and such a rest. |
| SseStream.CutInTwo | internal/agent/stream_sse.go:27-38 | Cutting what has arrived and later the remainder with what arrives next is cutting everything at once, also when the blank line straddles the seam. |
| SseStream.FedAllIsFedOnce | internal/agent/stream_sse.go:27-38 | Feeding chunk after chunk leaves the state that feeding their concatenation leaves. |
| SseStream.ChunkIndependence | internal/agent/stream_sse.go:27-75 | Two ways of cutting the same bytes into chunks give the same callback calls, last payload, done flag and buffer, before and after the flush. |
| SseStream.DoneIffFinished | internal/agent/stream_sse.go:55-58 | The done flag is up exactly when it was before or a `[DONE]` payload came by. |
| SseWriter.Writer.Emit | internal/stream/sse.go:26-42 | An event is written whole, or cut where the connection failed, or not at all when its payload cannot be marshalled; only a string payload of a `done` event goes out raw; a connection that holds a printed sequence then holds that sequence with the event behind it. |
| SseWriter.PrintedTogether | internal/stream/sse.go:36-38 | Printing one sequence of events after another is printing both as one. |
| SseWriter.FrameOfIsFrame | internal/stream/sse.go:36-38 | A printed event with one-line name and payload is one frame: its first blank line is the one that ends it. |
| SseWriter.FrameSpeaks | internal/agent/stream_sse.go:48-75 | The drainer reads exactly the one payload that was printed out of such a frame. |
| SseWriter.PrintedCut | internal/agent/stream_sse.go:27-75 | A printed sequence of events falls back into exactly those frames and events, with nothing left over. |
| SseWriter.RoundTrip | internal/stream/sse.go:26-42 | Print and parse: under any chunking the drainer does what the payloads in order ask for, its buffer ends empty, the flush changes nothing, and done is up exactly when `[DONE]` was printed. |
| SseWriter.DoneMeansAll | internal/agent/stream.go:86-97 | With `[DONE]` printed last and only there, the drainer is done only when everything printed has been fed. |
| SseWriter.EarlyExitLosesNothing | internal/agent/stream.go:79-100 | So stopping the read loop at `[DONE]` drains the whole response, whatever the reads. |
| SseWriter.FrameLines | internal/stream/sse.go:36-38 | A printed event is two lines, its name and its payload, each behind its field. |
| SseText.EventsSay | internal/agent/stream_sse.go:54-74 | Whatever the events: the callbacks are the contents that are not empty, in the order of the payloads, and the last payload is kept. |
| SseText.PrintedIsSpoken | internal/agent/stream_sse.go:27-75 | Printed events fed in any chunks: the callbacks are the contents of the payloads in the order they were printed, without the empty ones, and the last payload is that of the last event that is no `[DONE]`. |
| SseText.DrainedIsSpoken | internal/agent/stream.go:79-100 | A response that ends in `[DONE]`, drained by any reads: the text is the contents put together in order, cut at the first stop token. |
| SseText.CallbacksAreContents | internal/agent/stream.go:79-100 | If every payload but the last `[DONE]` has a content, there is one callback for each, with that content, in order, and the drainer is done. |
| SseText.ReadsEnd | internal/agent/stream.go:86-97 | The loop reads until a read reports an error or the drainer is done, and not once more. |
| StopTokens.StripTemplateLeakage | internal/agent/client.go:249-256 | The result is the input cut at the earliest place any listed token starts. |
| StopTokens.LlamaStopsSeparated | internal/agent/client.go:25-25 | No two of the listed tokens can overlap. |
| StopTokens.StripIsEarliestCut | internal/agent/client.go:249-256 | Cutting token by token in listed order is one cut at the earliest token of all, for any tokens that cannot overlap. |
| StopTokens.StripAnyOrder | internal/agent/client.go:249-256 | The order of the list does not matter. |
| StopTokens.StripIsClean | internal/agent/client.go:249-256 | The result is a prefix that holds no stop token, so stripping is idempotent. |
| AgentClient.Client.CompleteOnce | internal/agent/client.go:151-195 | One call is made and logged; status 200 with text is good, 200 without text, 5xx and connection errors are retryable, other statuses are final. |
| AgentClient.Client.TryFallback | internal/agent/client.go:97-113 | An unsupported other backend is not called; otherwise it is called once, and the fallback decision is recorded exactly when the result is good or not retryable. |
| AgentClient.Client.Round | internal/agent/client.go:74-79 | One round calls the primary, and after a retryable failure the fallback if there is one; its result replaces the primary's only when it is good or final. |
| AgentClient.Client.CallWithSystem | internal/agent/client.go:58-93 | For every sequence of replies: the calls made are the schedule below, the text is that of the deciding attempt or the not-responding message, and decisions are recorded for routing and for a fallback that was used, in that order. |
| AgentCalls.ScheduleIsThePolicy | internal/agent/client.go:72-87 | The schedule is the only sequence of calls that obeys the policy: primary first, nothing after a good or final outcome, a fallback after each retryable primary failure and only there, two chances for the primary and no early end without a final outcome. |
| AgentCalls.AtMostTwoEach | internal/agent/client.go:73-87 | One or two calls to the primary, at most two to the other backend, none there without a fallback. |
| AgentCalls.DecidingAttempt | internal/agent/client.go:73-92 | The text returned comes from the last call if that was good or final, otherwise from the second call to the primary, never from a failed fallback. |
| AgentCalls.FallbackRecordedIffUsed | internal/agent/client.go:105-112 | A fallback decision is on record exactly when the last call went to the other backend with a good or final outcome, which then is the one returned. |
| AgentCalls.GoodAnswerIsClean | internal/agent/client.go:177-186 | A good answer is not empty, has no white space at its ends and contains no stop token. |
| AgentCalls.FinalOutcomes | internal/agent/client.go:177-188 | Exactly the replies with a status outside 5xx end the calling, status 200 only when text is left after stripping. |
| AgentCalls.AnswerIsNeverEmpty | internal/agent/client.go:89-92 | Whatever happens the caller gets some text. |
| AgentCalls.GoodAnswerIsItsContent | internal/agent/client.go:177-186 | The text of a completion is what its content says in front of the first stop token, but for white space around it; it is good unless that is nothing. |
| AgentCalls.RefusalTellsMessage | internal/agent/client.go:187-192 | A refused call's text names the agent and ends in the server's message; only a status from 500 to 599 is retried. |
| Importance.RankOutputs | internal/session/importance.go:52-73 | The loop over the outputs computes the ranking: every output with its score, by score and then name. |
| Importance.AverageOf | internal/session/importance.go:76-85 | The loop computes the mean score, 0 for no outputs. |
| Importance.RankedIsSorted | internal/session/importance.go:52-73 | The ranking holds every output with its score, once, in strict order of score descending and then name. |
| Importance.RankIgnoresOrder | internal/session/importance.go:50-73 | It is the same sequence for every order in which the map is visited. |
| Importance.ImportanceInUnit | internal/session/importance.go:18-48 | Every score lies in [0, 1]. |
| Importance.AverageInUnit | internal/session/importance.go:76-85 | So does every average, and with it every run's score. |
| RunScores.ScoreIsMean | internal/session/compaction.go:27-33 | A run's score is the mean importance of its outputs, and 0.1 for a run without any. |
| RunScores.RunCharsIsLength | internal/session/compaction.go:36-48 | A run's size is the length of its prompt, its agents' answers and its final answer put together. |
| RunScores.LengthScore | internal/session/importance.go:19-27 | The length score is full exactly from one and a half times the peer average on, and below it in proportion. |
| RunScores.VarietyScore | internal/session/importance.go:30-43 | The variety score is full exactly for texts that have words and none of them twice. |
| SessionText.TinyBudgetKeepsHead | internal/session/text.go:40-42 | Below 256 bytes trimming keeps a well-formed prefix at most three bytes short of the budget. |
| SessionText.TrimBlockKeepsEnds | internal/session/text.go:43-47 | Otherwise it keeps a well-formed head and a well-formed tail, each at most three bytes short of its share, that do not overlap, around the marker. |
| SessionText.MarkerTellsOmitted | internal/session/text.go:45-47 | The number printed in the marker is the number of bytes over the budget. |
| SessionText.TrimBlockWellFormed | internal/session/text.go:36-48 | Trimming well-formed text gives well-formed text. |
| SessionText.FirstLines | internal/session/text.go:51-71 | The byte loop copies up to the first place where the byte cap or the line cap is reached. |
| SessionText.FirstLinesBound | internal/session/text.go:50-71 | The copy is at most the cap and its marker, well-formed, and well-formed text that is not cut is returned as it is. |
| Compaction.RunsToDrop | internal/session/compaction.go:51-88 | Sorting and the loop over the sorted list give exactly the ids of the greedy walk: weakest first, never the position of the last run, until the rest fits. |
| Compaction.WalkAscends | internal/session/compaction.go:69-86 | Runs are given up in strictly ascending order of score and then position. |
| Compaction.WalkTakesWeakest | internal/session/compaction.go:69-86 | Whatever is given up is weaker than whatever is kept, the last run aside. |
| Compaction.WalkStopsInTime | internal/session/compaction.go:72-86 | The walk ends as soon as the rest fits or only the last run is left, and not before. |
| Eviction.SelectIsPartition | internal/session/summarize.go:70-83 | Dropped and kept runs together are the runs, each once. |
| Eviction.SelectIsSubsequence | internal/session/summarize.go:70-83 | Both keep the order of the runs. |
| Eviction.LatestRunStays | internal/session/compaction.go:49-77 | With distinct non-empty ids the newest run is kept, as the last. |
| Eviction.RemainingFits | internal/session/compaction.go:49-87 | What is kept fits the target or is the newest run alone. |
| Eviction.WeakestGoFirst | internal/session/compaction.go:69-86 | Every dropped run precedes every kept run but the newest by score and then position. |
| Eviction.EvictionIsMinimal | internal/session/compaction.go:72-86 | Putting the strongest dropped run back would exceed the target. |
| EvictionById.ChosenIff | internal/session/compaction.go:69-86 | For any runs and target the walk chooses an earlier run exactly when the size left without all weaker runs is still over the target. |
| EvictionById.GoneIff | internal/session/compaction.go:78-87 | Dropping is by id: a run goes exactly when it has an id and the walk chooses an earlier run with that id. |
| EvictionById.LatestKeptAt | internal/session/compaction.go:72-87 | For any runs and target the newest run stays exactly when it has no id, or no earlier run with its id is over the target once the weaker ones are gone. |
| EvictionById.LatestKeptIff | internal/session/compaction.go:49-87 | Over all targets from 0 on the newest run stays exactly when it has no id or nothing is left where an earlier run shares it; for a newest run that is not empty, exactly when no earlier run shares it. |
| EvictionById.RepeatedIdLosesNewest | internal/session/compaction.go:72-87 | At the service's 32000: any two such runs with one id that are over it are both dropped, and the session is left without a run. |
| EvictionById.BudgetMetAt | internal/session/compaction.go:72-87 | For any runs and target the budget is met, as far as dropping earlier runs can, exactly when what the runs that have an id and share it with an earlier run over the target leave is within it, or every earlier run is among those. |
| EvictionById.BudgetKeptIff | internal/session/compaction.go:72-87 | Over all targets from 0 on the budget is met, as far as dropping earlier runs can, exactly when every earlier run has an id or only empty runs stay behind. |
| EvictionById.EmptyIdExceedsBudget | internal/session/compaction.go:80-84 | At the service's 32000: an earlier run without an id is never dropped, and the session stays over the budget. |
| Summary.DigestRun | internal/session/summarize.go:19-36 | The builder loop computes the digest of a run: the request, then each agent's output in ranked order until the cap is reached. |
| Summary.RunIgnoresAgentOrder | internal/session/summarize.go:19-36 | Score, size and digest of a run are functions of the run, whatever order its agents are visited in. |
| Summary.FoldSummary | internal/session/summarize.go:40-57 | The loop folds the non-empty digests behind the existing summary and trims the result from the front. |
| Summary.SummaryIsBounded | internal/session/summarize.go:38-57 | For every existing summary and dropped list the result is at most 6000 bytes and the fixed marker. |
| Summary.FoldIsWellFormed | internal/session/summarize.go:40-57 | Folding keeps the summary well-formed. |
| Summary.NewestDigestSurvives | internal/session/summarize.go:45-55 | The newest non-empty digest that fits the cap by itself is, whole, the end of the summary. |
| SummaryRolls.FoldRollsOn | internal/session/summarize.go:41-55 | While it fits 6000 bytes the existing summary starts the new one and all digests that are not empty follow, each behind a newline, in the order of the dropped runs. |
| SummaryRolls.FoldInTurn | internal/session/summarize.go:39-55 | Folding some runs and later others is folding all of them at once, while it fits. |
| SummaryRolls.FoldKeepsTail | internal/session/summarize.go:51-54 | Over the cap the summary is the marker and the whole characters of the last 6000 bytes of that same text. |
| SummaryRolls.DigestLists | internal/session/summarize.go:20-35 | A digest is the request and one line for each output, strongest first, until it is long enough, trimmed to its cap; each line has the output's own name and first lines. |
| SummaryRolls.OutputsAre | internal/session/compaction.go:11-23 | A run's outputs are its agents' answers and its final answer, which takes the place of an agent of that name. |
| SummaryHistory.SummaryRemembers | internal/session/summarize.go:57-93 | Over any history: as long as the digests of everything evicted fit together, the session's summary is those digests, in the order of the evictions; no compaction forgets an earlier one. |
| SummaryHistory.EvictedAreHanded | internal/session/store.go:105-118 | When nothing was lost, what was evicted is what the hook was handed, in the same order. |
| SessionStore.Session.Compact | internal/session/summarize.go:61-90 | Compaction splits the session's runs into evicted and remaining ones, in order, and folds the evicted into the summary; without evictions nothing changes. |
| SessionStore.Session.Append | internal/session/store.go:103-107 | The run goes in behind the others and the session is compacted to 32000. |
| SessionStore.Store.SetEvictHook | internal/session/store.go:25-29 | Only the hook changes. |
| SessionStore.Store.AppendLocked | internal/session/store.go:92-111 | Exactly the session's document changes, created when it is missing; every other document stays as it is. |
| SessionStore.Store.HandOff | internal/session/store.go:113-116 | The hook is called once with all evicted runs when there are any, the save went well and a hook is set; otherwise nobody learns of them. |
| SessionStore.Store.AppendRun | internal/session/store.go:91-118 | The whole new state of the store after appending a run, and the error result is that of the save. |
| SessionHistory.StoredInOrder | internal/session/store.go:91-118 | Over every history, whatever the ids: the stored runs are a subsequence of the appended ones and the summary is within 6000 bytes and its marker. |
| SessionHistory.SessionStaysInShape | internal/session/store.go:91-118 | Over every history with distinct non-empty run ids: the newest run is stored, as the last, and the size is within 32000 or one run is left. |
| SessionHistory.RunsAreConserved | internal/session/store.go:91-118 | Over every history, whatever the ids: stored, handed-off and lost runs together are exactly the appended runs. |
| SessionHistory.EachRunOnce | internal/session/store.go:103-116 | With distinct ids each appended run is in exactly one of these places, once. |
| SessionHistory.ConservedIffNothingLost | internal/session/store.go:109-116 | Whatever the ids, stored plus handed-off runs are all appended runs exactly when no eviction was lost. |
| SessionHistory.NothingLost | internal/session/store.go:109-116 | With the hook set first and every save succeeding none is. |
| SessionHistory.SummaryStaysWellFormed | internal/session/summarize.go:40-57 | Whatever the run ids, any number of evictions leaves the summary well-formed as long as agent names are. |
| Continuation.AppendTrimmed | internal/session/context.go:50-66 | One section of context: written trimmed to its budget, left out when nothing remains, and the flag goes up when it was over budget. |
| Continuation.OtherNotes | internal/session/context.go:75-87 | The notes of the other agents, by name, three lines and 900 bytes each; the flag counts bytes only. |
| Continuation.TrimmedSections | internal/session/context.go:44-74 | The sections written are the included ones among summary, original request, final answer and target answer, in this order, with a third, a fifth, a quarter and half of the budget. |
| Continuation.BuildContinuation | internal/session/context.go:15-115 | The builder produces the assembled prompt and the flag, refitted when it is too long; an unknown session gives back the bare follow-up. |
| ContinuationBounds.ContinuationIsBounded | internal/session/context.go:93-101 | The prompt is at most the budget, the follow-up heading and the two markers the refit may add. |
| ContinuationBounds.FollowupSurvives | internal/session/context.go:90-101 | A follow-up of at most a quarter of the budget is in the prompt verbatim, behind its heading and in front of nothing but the closing line. |
| ContinuationBounds.UnusedMeansVerbatim | internal/session/context.go:49-101 | When no compaction is reported the prompt is within budget and made of the whole included sections. |
| ContinuationSections.TextsStandVerbatim | internal/session/context.go:38-91 | With the flag unused the prompt is the opening line, the summary, the first run's prompt, the latest run's final answer and the target agent's answer as the session has them, each that is wanted and not empty under its own heading and in this order, then notes, follow-up and closing line. |
| ContinuationSections.TextStands | internal/session/context.go:49-74 | So each of the four, when wanted, stands verbatim behind its heading. |
| ContinuationSections.PromptIsLaidOut | internal/session/context.go:49-101 | Used or not, the prompt is these texts cut to a third, a fifth, a quarter and a half of the budget; over the budget it is head and tail of that and the follow-up, which may take a quarter. |
| ContinuationSections.UsedIff | internal/session/context.go:49-95 | The flag goes up exactly when the prompt was refitted, a wanted text is over its share, or another agent's answer is over 900 bytes. |
| NoteCuts.FirstLinesWholeIff | internal/session/text.go:51-70 | For any text and limits: the first lines are the text exactly when it is well-formed and the copy takes all of it or leaves off just what the marker puts back. |
| NoteCuts.LineCutIsAt | internal/session/text.go:54-65 | The copy ends at a place exactly when it has room up to there, no last line ends before, and text, room or last line end there. |
| NoteCuts.NoteIsWholeIff | internal/session/context.go:85 | For any text: the note is the agent's whole answer exactly when that is well-formed, of at most 900 bytes and with no line after the third, or ends in the very marker just where it is cut. |
| NoteCuts.UnusedMeansWholeNotesIff | internal/session/context.go:76-87 | With the flag unused no other agent's answer is over 900 bytes, and all of them are noted whole exactly when each meets that condition. |
| NoteCuts.NoteInPrompt | internal/session/context.go:76-87 | With the flag unused every other agent's name and the first lines of its answer stand in the prompt. |
| NoteCuts.CutNoteGoesUnreported | internal/session/context.go:84-85 | A session whose only other agent answered in four lines: the prompt has a note that is cut, and the flag says that nothing was. |
| ContinuationBounds.ContinuationIgnoresOrder | internal/session/context.go:67-88 | The prompt does not depend on the order the agents' map is visited in. |
| ContinuationBounds.ContinuationIsWellFormed | internal/session/context.go:38-101 | Well-formed context gives a well-formed prompt. |
| PromptBudget.EffectiveMaxPromptChars | internal/synthesis/budget.go:28-63 | The budget is always between 1024 and 1048576 and four times a token count; an override in range decides it. |
| PromptBudget.WindowIsShared | internal/synthesis/budget.go:41-54 | Budget in tokens, completion and the reserve of 768 make up the synthesizer's window whenever what is left for the budget is in range; otherwise it is the nearer bound. |
| PromptBudget.BudgetFollowsWindow | internal/synthesis/budget.go:41-54 | A wider window never shrinks the budget and a longer completion never widens it. |
| PromptBudget.TruncateNoteBound | internal/synthesis/budget.go:67-76 | A truncated text exceeds its cap by at most the marker less one byte, and not at all for caps up to 80. |
| PromptBudget.TruncateNoteKeepsHead | internal/synthesis/budget.go:67-76 | It is a well-formed prefix, at most three bytes shorter than the byte cut, and the marker. |
| Allocation.SlackIsConserved | internal/synthesis/assemble.go:54-67 | Redistribution hands out the slack to the last byte, as far as the bodies can use it. |
| Allocation.SharesFitRoom | internal/synthesis/assemble.go:47-53 | The proportional shares, rounded down, never claim more than the room beyond one floor per body. |
| Allocation.AllotmentUsesRoom | internal/synthesis/assemble.go:44-67 | If the floored shares leave slack the bodies take exactly the room; otherwise they take more than it by at most 128 per body; no allotment is under 128. |
| Allocation.AllotmentIsProportional | internal/synthesis/assemble.go:44-67 | Where no slack is left an allotment is the body's share of the room in proportion to its length, rounded down, or the floor; nobody ever gets less. |
| AssembleFit.Assemble | internal/synthesis/assemble.go:12-82 | The in-place algorithm returns the fitted prompt and leaves the bodies cut to their allotments exactly when the trim branch is taken. |
| AssembleFit.AggressiveTrim | internal/synthesis/assemble.go:22-33 | When the fixed parts leave no room every body is cut to its first bytes before the whole is truncated. |
| AssembleFit.AllotLoop | internal/synthesis/assemble.go:45-67 | The loops compute floored proportional shares and then redistribute the slack in order. |
| AssembleBounds.FittingContentIsVerbatim | internal/synthesis/assemble.go:22-37 | Content that fits, past the overhead guard, is returned verbatim. |
| AssembleBounds.ResultIsBounded | internal/synthesis/assemble.go:12-82 | With a header for every body no result is longer than the budget and all but one byte of the marker; otherwise the result is prefix and footer, at any length. |
| AssembleBounds.TrimmedStillOverflows | internal/synthesis/assemble.go:39-78 | In the trim branch, for well-formed bodies, the bodies exceed the room and the trimmed whole still exceeds the budget, so the final cut is always made. |
| AssembleBounds.TrimBranchResult | internal/synthesis/assemble.go:68-82 | For budgets over 80 bytes and well-formed text: the result is a well-formed prefix of the whole and the marker, starts with the whole prompt prefix, and has its maximal length exactly when the cut falls between characters. |
| AssembleExact.WithinBudgetIff | internal/synthesis/assemble.go:8-82 | For well-formed text, in every branch: the result is within the budget exactly when what is asked to fit is (all of it, or the parts cut to their fixed caps when the budget leaves no room), or the budget is too small for a marker. |
| AssembleExact.FooterKeptIff | internal/synthesis/assemble.go:10-82 | For well-formed text and budgets over 80 bytes, in every branch: the result ends in the footer exactly when what is asked to fit does, or the footer matches the end of the cut text and its marker. |
| AssembleExact.OrdinaryFooterKeptIff | internal/synthesis/assemble.go:10-82 | A non-empty footer that does not end in the marker's last byte is preserved exactly when what is asked to fit does. |
| AssembleExact.IllFormedCanFit | internal/synthesis/assemble.go:68-78 | Why the text has to be well-formed: a trimmed body of stray bytes vanishes but for the marker, and the final cut is not made. |
| AssembleAscii.AsciiResultIsLongestIff | internal/synthesis/assemble.go:68-82 | For ASCII input a trim-branch result has its greatest length exactly when the cut is not at offset 4 or 5 of a cut body's marker, whose place is given by the lengths of prefix, headers and bodies and the allotments. |
| PromptExact.PromptPromisesKeptIff | internal/synthesis/budget.go:91-122 | Each of the three prompts, for well-formed text: it is within its budget exactly when what it asks to fit is, and exactly then it ends in its footer. |
| PromptExact.LongContributionBreaksPromises | internal/synthesis/budget.go:103-122 | A streamed prompt at the smallest budget of 1024 with one long contribution is over its budget and has lost its footer. |
| PromptExact.AsciiPromptCanBeShorter | internal/synthesis/budget.go:103-122 | A streamed ASCII prompt at that budget whose cut splits the marker of its second contribution is shorter than the greatest length. |
| SynthesisPrompt.BuildPrompt | internal/synthesis/budget.go:108-122 | Numbered headers and bodies are put together and fitted to the budget. |
| SynthesisPrompt.PromptIsBounded | internal/synthesis/budget.go:108-122 | Every prompt is within its budget up to the marker. |
| PromptContents.FittingPromptIsWhole | internal/synthesis/budget.go:108-122 | A prompt that fits is the request, every contribution in full under its own numbered label, in order, and the footer. |
| PromptContents.TrimmedPromptKeepsAll | internal/synthesis/assemble.go:39-82 | In the trim branch every contribution still stands under its header, in order, left alone or cut to its allotment, before the whole is cut. |
| PromptContents.CrampedPromptKeepsHeads | internal/synthesis/assemble.go:22-33 | With no room left the prefix is cut to a third of the budget and every body to 256 bytes, in order, before the whole is cut. |
| PairwiseReduction.ReducePairwise | internal/synthesis/tiered.go:41-69 | 0 blocks make no call, 1 block makes one, more make one call per block that disappears, each with the prompt of the two blocks it merges, in as many rounds as the logarithm says or the cap allows. |
| PairwiseReduction.OneRound | internal/synthesis/tiered.go:51-62 | A round merges neighbours left to right, carries an odd block over and calls once per pair. |
| PairwiseReduction.ReductionIsBalanced | internal/synthesis/tiered.go:41-69 | Up to 2 to the 65th blocks end in one merge tree whose leaves, left to right, are the blocks, each once, and whose depth is at most the rounded-up logarithm. |
| PairwiseReduction.EachCallOnce | internal/synthesis/tiered.go:41-69 | Capped or not, the call numbers of the merges are 0 up to one call per block that disappeared, each of exactly one merge. |
| PromptContents.MergeAsksAboutBoth | internal/synthesis/tiered.go:51-62 | Each merge is one call whose prompt has both blocks, the left one first, in full whenever they fit, and the merged block is the answer to that call. |
| PairwiseReduction.CapLosesNothingIff | internal/synthesis/tiered.go:50-67 | The round cap loses no block exactly up to that number. |
| PairwiseReduction.CeilLog2IsLogarithm | internal/synthesis/tiered.go:49-67 | The number of halvings is the rounded-up logarithm. |
| Reflection.Reflect | internal/reflect/reflect.go:67-104 | An empty window calls nobody; any other calls the completer once with the numbered digests; a failure stores nothing and is always the unusable kind; otherwise the valid lessons, trimmed, go to the sink and the stored ones are counted. |
| ReflectionPrompt.PromptIsItsParts | internal/reflect/reflect.go:76-79 | The text asked is, for every episode in order, its numbered heading, its own digest and a blank line, and nothing else. |
| ReflectionPrompt.EpisodeStands | internal/reflect/reflect.go:76-79 | Every episode's digest stands under its own number, between the parts before and after it. |
| ReflectionPrompt.ParsedPart | internal/reflect/reflect.go:106-118 | Everything from the first opening to the last closing bracket is decoded. |
| ReflectionPrompt.ValidAreCounted | internal/reflect/reflect.go:91-96 | As many lessons are offered as have one of the three kinds and a text. |
| ReflectionPrompt.ValidIsOffered | internal/reflect/reflect.go:91-97 | Each of them is offered, trimmed, in its turn. |
| ReflectionPrompt.OutcomeCounts | internal/reflect/reflect.go:81-104 | The result counts episodes, lessons proposed and sink calls that went well. |
| Reflection.StoreLessons | internal/reflect/reflect.go:91-103 | Every valid lesson is offered once, in order, and a refused one does not stop the rest. |
| Reflection.History.Since | internal/history/store.go:96-108 | The rows from the clamped cursor on, and the length of the log. |
| Reflection.History.Append | internal/history/store.go:110-115 | The row is in memory whether or not writing the file succeeds. |
| Reflection.SelectEpisodes | internal/reflect/pass.go:26-32 | The loop leaves out exactly the reflection records. |
| ReflectionPrompt.EpisodesCount | internal/reflect/pass.go:26-32 | As many rows are selected as are no reflection records. |
| ReflectionPrompt.EpisodeAt | internal/reflect/pass.go:26-32 | Each of them is at the place its predecessors leave for it. |
| ReflectionPrompt.CapKeepsLatest | internal/reflect/pass.go:36-38 | The cap keeps the most recent episodes, as many as it allows. |
| Reflection.Pass | internal/reflect/pass.go:24-59 | Whatever the completer answers, the next cursor is the length of the log that was read; one completer call for the last episodes up to the cap; one record is appended exactly when the output was usable, and exactly then the valid lessons are offered to the sink. |
| Cursor.CursorFile.Load | internal/reflect/scheduler.go:23-37 | A missing file, one that cannot be read, one that holds no number and a negative number count as 0. |
| Cursor.CursorFile.Save | internal/reflect/scheduler.go:39-49 | A write leaves the number, or when it fails the old content or any first part of the new digits. |
| Cursor.CursorReadsBack | internal/reflect/scheduler.go:23-49 | A finished write reads back; what a torn one leaves reads as no more than was written. |
| ReflectionScheduler.Scheduler.Tick | internal/reflect/scheduler.go:107-126 | Log, cursor, completer calls and lessons offered after a tick are those of the four steps read, complete, append record and save, and the result is that of the completion. |
| ReflectionPrompt.TickAsksAbout | internal/reflect/scheduler.go:107-109 | Every non-reflection row a tick reads, as far as the cap allows, has its digest, under the number of its place, in the one text the tick sends. |
| ReflectionRuns.TakenIsCounted | internal/reflect/scheduler.go:107-126 | Over every interleaving, however reads and writes of the cursor file fail: what went through windows is as much as there are non-reflection rows between the first cursor and the mark, plus those each failure moved the mark back over; and it is exactly those rows, in order, if and only if no failure moved it back over one. |
| ReflectionRuns.ExactlyOnceIff | internal/reflect/scheduler.go:107-126 | With the cap off the same of the rows the completer was sent: each non-reflection row up to the mark was sent exactly once, in order, if and only if no failed read or write moved the mark back over one. |
| ReflectionRuns.ExactlyOnce | internal/reflect/pass.go:24-59 | Over every interleaving with appends by others, while the cursor file can be read and written: what windows dropped and sent is exactly the non-reflection rows up to the mark, in order; and what was sent is exactly those, each once, if and only if no window was over the cap. |
| ReflectionRuns.ExactlyOnceWithoutCap | internal/reflect/pass.go:25-39 | With the cap off too the completer has seen exactly the non-reflection rows below the cursor, in order, each once. |
| ReflectionRuns.NoEpisodeIsMissed | internal/reflect/scheduler.go:107-116 | Even when the cursor file cannot be read and saves fail and tear it, every non-reflection row below the persisted cursor went through a window, and was sent when the cap is off. |
| ReflectionPrompt.EveryDigestIsAsked | internal/reflect/scheduler.go:107-116 | Over every run with the cap off, whatever fails: the digest of each non-reflection row below the saved cursor stands in a text the completer was sent. |
| ReflectionRuns.FailedSaveRepeats | internal/reflect/scheduler.go:107-116 | A tick sends every row above the cursor it read, which is the whole log when the file cannot be read; after a failed save the next tick sends again every row above the cursor left in the file, which for an untouched file is all the first one sent. |
| ReflectionRuns.PassesAddNoEpisodes | internal/reflect/pass.go:26-32 | The log only grows, and its non-reflection rows are the first ones and those appended by others. |
| ReflectionRuns.NoSelfFeeding | internal/reflect/pass.go:25-35 | The completer is asked at most as often as there are non-reflection rows from the first cursor on, and those that failures of the cursor file brought back; while it holds there are none of these. |
| ReflectionRuns.OnlyCleanLessons | internal/reflect/reflect.go:91-103 | Over every interleaving, whatever the completer answers: only lessons of a valid kind, trimmed and not blank, are offered, and no more than were proposed. |
| ReflectionRuns.Quiescence | internal/reflect/scheduler.go:107-126 | From any moment of any run, once the tick in progress is over, and while the cursor file can be read and written, two ticks bring the cursor to the end of the log and every later tick changes nothing. |
| BroadcastThreads.FrameQueue.WriteEvent | legacy/cpp/coordinator_routes_architect_stream.cpp:112-121 | A frame goes to the end of the queue. |
| BroadcastThreads.AgentThread.FlushBatch | legacy/cpp/coordinator_routes_architect_stream_modes.cpp:52-57 | The batch goes out as one token frame and is empty; an empty one writes nothing. |
| BroadcastThreads.AgentThread.OnChunk | legacy/cpp/coordinator_routes_architect_stream_modes.cpp:58-67 | A chunk extends answer and batch, a batch of 128 bytes goes out, the shared flag is looked at before the deadline. |
| BroadcastThreads.AgentThread.Body | legacy/cpp/coordinator_routes_architect_stream_modes.cpp:40-85 | A whole thread writes the frames and stores the output of the corresponding moves of the step system. |
| BroadcastThreads.AgentThread.WindUp | legacy/cpp/coordinator_routes_architect_stream_modes.cpp:71-84 | After an exception the batch and an error frame, then the last batch, the note when out of time, and the closing frame. |
| BroadcastThreads.SinkWriter.Drain | legacy/cpp/coordinator_routes_architect_stream.cpp:123-145 | On a closed queue the writer ends with the queue empty, having handed on the frames up to the first refusal, and raises the flag exactly when there was one. |
| BroadcastThreads.ThreadSaysItsOutput | legacy/cpp/coordinator_routes_architect_stream_modes.cpp:40-85 | What a thread writes is what its stream delivered, which is the output it stores, and the note when out of time. |
| BroadcastDeadlines.ThreadTimesOutIff | legacy/cpp/coordinator_routes_architect_stream_modes.cpp:58-84 | A thread ran out of time exactly when some chunk came late while its shared flag was down, and was stopped exactly when it began cancelled or some chunk was cancelled or late; it writes its tokens, the error if any, the note exactly in the first case, and its closing frame. |
| BroadcastProjection.AgentFollows | legacy/cpp/coordinator_routes_architect_stream_modes.cpp:44-88 | At every moment of every interleaving each agent, with the frames it has written, is somewhere in its thread program. |
| BroadcastProjection.AgentRunsItsThread | legacy/cpp/coordinator_routes_architect_stream_modes.cpp:44-88 | An agent that is done has run that program from start to end on the chunks its stream delivered: its frames, in order, and its stored output are the program's. |
| BroadcastAgents.StoredIsSpoken | legacy/cpp/coordinator_routes_architect_stream_modes.cpp:58-84 | At every moment of every interleaving: a stored output is all its stream delivered, and the agent's token frames spell it, with the note behind it when out of time. |
| BroadcastAgents.StreamingKeepsBatch | legacy/cpp/coordinator_routes_architect_stream_modes.cpp:58-61 | While streaming, only a batch of under 128 bytes is missing from the frames. |
| BroadcastAgents.AfterTheBarrier | legacy/cpp/coordinator_routes_architect_stream_modes.cpp:80-87 | Behind the join every agent has stored its output and written its closing frame, once and last. |
| BroadcastDeadlines.TimedOutIff | legacy/cpp/coordinator_routes_architect_stream_modes.cpp:62-67 | Over every interleaving: the same in terms of the steps in which the agent looked at the flags. |
| BroadcastDeadlines.NoteIffLate | legacy/cpp/coordinator_routes_architect_stream_modes.cpp:77-79 | The note follows a stored output exactly when its agent found itself late. |
| BroadcastDeadlines.CancelIff | legacy/cpp/coordinator_routes_architect_stream.cpp:138-144 | The shared flag is up exactly when somebody cancelled or the sink refused a frame. |
| BroadcastDelivery.NothingIsLost | legacy/cpp/coordinator_routes_architect_stream.cpp:107-145 | On a sink that stays writable, at every moment of every interleaving, sink, writer and queue together hold exactly what was enqueued, in order. |
| BroadcastDelivery.DeliveredInOrder | legacy/cpp/coordinator_routes_architect_stream.cpp:123-145 | Whatever the sink does it gets an ordered part of what was enqueued, and the end marker only behind it, after the writer has ended. |
| BroadcastDelivery.BroadcastDelivers | legacy/cpp/coordinator_routes_architect_stream.cpp:220-231 | A finished run on such a sink delivered every frame and then the end marker; of each agent the stored output, the note when out of time, and the closing frame once and last. |
| BroadcastDelivery.WriterEndsAfterClose | legacy/cpp/coordinator_routes_architect_stream.cpp:220-227 | After the close the writer has a bounded number of steps left in every interleaving and is never stuck before it has ended, writable sink or not. |
| BroadcastDelivery.DeadSinkStopsAgents | legacy/cpp/coordinator_routes_architect_stream.cpp:138-144 | After a refusal the next look of a streaming agent at the flags tells its stream to stop, without counting it as out of time. |
| BroadcastRefusal.RefusalDropsQueue | legacy/cpp/coordinator_routes_architect_stream.cpp:138-144 | A refused frame and all queued behind it are dropped: in every run that follows the sink gets only frames enqueued later, in order. |

## Left out

- AssembleBounds.TrimBranchResult: budgets of 80 bytes and less, for which a cut text has no marker, are not covered; every budget the service derives is at least 1024.
- AssembleExact.FooterKeptIff: the same budgets are not covered.
- HTTP handlers, registry, retrieval and bus clients: plumbing around services that are not part of this model.
- JSON encoding and decoding, files and reloading: decoders are parameters, writing succeeds or fails. Agents stored in the process as a map of strings, which run sizes do not count until the session is reloaded, are not modelled; agents are the string outputs.
- Restarts: a log file written by an older append may be shorter than the saved cursor afterwards. Reflection is about one process whose log only grows, with one tick at a time and a first cursor inside the log.
- The backend router's choice: routing decisions and whether the router may alter dispatch are inputs of the retry machine, the latter fixed during a call.
- Clocks, sleeps, tickers, backoff, logging and generated ids: deadlines and failures are arbitrary choices of a step.
- Integer width and rounding: Go's 64-bit overflow is not modelled, and scores are real numbers, not 64-bit floats.
- Negative context budgets: the code panics on them, so the continuation requires a budget of at least 0.
- Metadata: timestamps, token estimates and counters of sessions and continuations.
- Calls of the eviction hook by concurrent appends: each append with its hand-off is one step, so the order of the hand-offs of two overlapping appends is not modelled.
- What a stream does after it was told to stop, and frames whose text is not valid UTF-8, for which the C++ JSON printer throws: a stopped stream may go on delivering chunks here.
- Two agents of one name in a broadcast: they would share a place among the outputs; names are distinct here.
- Rows of episodes in the reflection prompt: the digest of an episode is a parameter.
- `mergeRosterRAG`, `StampMeta`, `BuildRAG`, `Search`, environment parsing and the C++ code the Go code ports one to one: they would add easy members only.
