# A verified model of the proxy's translation and healing layer

The proxy speaks the Responses protocol to its client and either Chat Completions or Responses to its upstream.
In between it translates streams, heals markup that a model leaked into its visible text, and keeps two stores.
This project models that layer and proves that its fast, incremental or concurrent forms agree with something
simple: filters that see a text in pieces agree with one pass over the whole text, a transducer agrees with a
grouping of its input, searches that resume agree with searches from the start, interleaved tasks keep an
invariant, and what a finished turn stores comes back as the turn it was.

`dafny verify dfyconfig.toml` checks everything.

## How it is laid out

| part of the proxy | modules |
|---|---|
| text and delimiters | `Text`, `Tags`, `Wrappers`, `Chat` |
| think tags | `Think` |
| DSML markup: what a text means, the account of its openings, envelopes, the stream filter, when stream and one-shot parse agree, the printer, the language of the parser, calls inside malformed calls, the cursor parser | `DsmlSyntax`, `DsmlScan`, `DsmlEnvelopes`, `DsmlHeal`, `DsmlBlocking`, `DsmlPrinter`, `DsmlGrammar`, `DsmlRoundTrip`, `DsmlNesting`, `DsmlParser` |
| the merger of fragmented items | `Merge`, `MergeReference`, `MergeRuns`, `MergeIdentity`, `MergeCollapse` |
| Chat to Responses: the converter, its protocol, its text, the non-streaming path, the driver | `Converter`, `ConverterTrace`, `ConverterText`, `ConverterFinish`, `Blocking`, `Driver` |
| Responses to Chat: replay, and the round trip through the session | `Replay`, `ReplayFields`, `RoundTrip` |
| tool declarations | `Tools`, `ToolOffers` |
| the Responses healer: its steps, its text, when it fires, streams without and with healing, its injected items | `ResponsesHealer`, `ResponsesHealing`, `ResponsesQuiet`, `ResponsesFiring`, `ResponsesFired`, `ResponsesInjected` |
| the merger and the healer behind each other | `HealedRelay` |
| inputs at which something fails | `FailingInputs` |
| server-sent events, and what the session capture reads of them | `Sse`, `SseBlock`, `Capture`, `CaptureBlock` |
| the catalog cache and the session store | `CatalogCache`, `CatalogExact`, `CatalogRefresh`, `SessionStore` |

Code that changes things step by step is a class or a loop here too, proved against a function of its inputs or of
its old state; the theorems are about those functions and about whole runs of them.  Strings are sequences of
characters, as the program slices them only at character boundaries; the byte scanners read the same type, one
character a byte.  The scanners are proved for any set of delimiters that have their lead character only at the
front, and the program's own delimiters are shown to be such sets.  JSON values of non-string parameters, the JSON
writer and fresh ids are parameters.  Payloads are datatypes with one case for data that does not parse.  Every await
and every lock of the cache is a step at which any other task may move, and a request may be dropped at every await.

## Where the code is subtler than its documentation

- A cold catalog request compares no fingerprint behind its wait.  During a quiet request, one in which nothing is
  written, that matters exactly when it starts while nothing is cached and another task still holds an older
  configuration that it may store and then let the lock go, if only because it is a request that may be dropped; then
  it may answer with that one (`CatalogExact.QuietGetIsCurrentExactly`).
- Streaming and one-shot DSML healing agree on every continuation of a marker-free front exactly when that front does
  not end in the beginning of a marker; of a front that does, some continuation is healed differently
  (`DsmlRoundTrip.StreamMatchesOneShotExactly`).
- A stored turn does not always come back as it was: it takes up reasoning that is buffered before it, and calls
  directly behind another turn join that turn (`RoundTrip.TurnReplaysBehind`).  The namespace of a tool call is lost
  in the replayed name exactly when it is empty (`RoundTrip.NameSurvivesExactly`).
- Stream and blocking path store a call with blank arguments, or without a name, differently, and reasoning that was
  healed out of the text before other reasoning came (`Blocking.StoredItemsMatchBlocking`).
- A client that leaves gets no completed event, yet its session is saved when only that event was missing, or when the
  response consists of nothing else (`Driver.LeavingClientGetsAPrefix`).
- The event capture reads one run of data lines behind its marker: it misses those before the marker or behind another
  line, reads one without a space behind its colon as nothing, and takes an indented one that its block does not carry
  (`CaptureBlock.CapturedIsCarriedExactly`).
- Reasoning that was injected into a Responses stream is never done when no completed event comes behind it
  (`ResponsesInjected.TruncatedStreamLeavesReasoningOpen`).
- A session that has expired but has not been pruned is still found (`SessionStore.SessionState.Get`).

## Model

| member | source | states |
|---|---|---|
| DsmlParser.ParseLeakedToolCalls | src/heal/dsml.rs:110-140 | the cursor loop over a text computes the account of its openings: the accepted calls in order, and the text outside them with its blank envelopes stripped; none when no call is accepted |
| DsmlScan.VerdictsCharacterized | src/heal/dsml.rs:110-140 | a list of verdicts is the parser's own if and only if every verdict is justified by a call opening at its start and no opening stays outside: nothing is lost and nothing is invented |
| DsmlScan.RejectedSpansStayInert | src/heal/dsml.rs:124-131 | no call inside a rejected span is accepted, and none at all behind a rejected call whose end is not found |
| DsmlScan.SpansAreDisjoint | src/heal/dsml.rs:113-133 | accepted and rejected spans are non-empty, within the text, and pairwise disjoint |
| DsmlScan.RemainderIsOutside | src/heal/dsml.rs:116-139 | before envelopes are stripped, the visible text is exactly the text outside the accepted spans |
| DsmlScan.BalanceIsFirstReturn | src/heal/dsml.rs:259-332 | a malformed call ends where its nesting of invocations, counted token by token, first closes, if and only if it does |
| DsmlScan.OpeningHasOneDialect | src/heal/dsml.rs:150-170 | at most one dialect opens a call at one place |
| DsmlParser.FindNextInvoke | src/heal/dsml.rs:150-170 | the earlier opening of the two dialects, found by one search each |
| DsmlParser.ParseInvoke | src/heal/dsml.rs:172-255 | the cursor parser of a call agrees with the recursive reading of the text behind its start |
| DsmlParser.ParseParameters | src/heal/dsml.rs:186-254 | the parameter loop: every parameter named, no name twice, an end tag at last |
| DsmlParser.ParseParameterValue | src/heal/dsml.rs:216-252 | a parameter's value: an attribute of a self-closing double-bar tag, or the body up to its own closing tag with no other delimiter inside |
| DsmlParser.MalformedInvokeEnd | src/heal/dsml.rs:259-332 | error recovery finds the first balanced end behind a malformed call, or none; which texts balance is told by `DsmlNesting` |
| DsmlParser.ReadToken | src/heal/dsml.rs:266-330 | one step of the recovery: the next token and what it does to the nesting; what calls, parameters, closing tags and tags of the other dialect do to it is told by `DsmlNesting` |
| DsmlNesting.NestedCallsAreSkipped | src/heal/dsml.rs:257-332 | a malformed call with a bounded opening tag is skipped with every call printed inside it, in any number and nested to any depth: the rejected span ends exactly behind its own closing tag, no call inside is accepted, and what follows is read as if it stood alone |
| DsmlNesting.UnquotedCallSkipsNestedCalls | src/heal/dsml.rs:257-332 | the same for every opening tag without quoted attributes, such as `name=bad`, which is malformed and bounded |
| DsmlNesting.UnclosedCallSwallowsTheRest | src/heal/dsml.rs:257-332 | when behind the calls inside it no closing tag of its dialect follows, or a tag of the other dialect comes first, or a parameter that another opening tag interrupts, everything behind the malformed call is rejected and the text stays as it is |
| DsmlNesting.SelfClosingCallSkipsItsTag | src/heal/dsml.rs:259-263 | of a self-closing call only the tag is skipped, and what follows is read as if it stood alone |
| DsmlParser.ScanOpenTag | src/heal/dsml.rs:338-379 | the tolerant scan of an opening tag, up to the first `>` outside quotes |
| DsmlParser.ParseOpenTag | src/heal/dsml.rs:381-463 | the strict reading of an opening tag |
| DsmlParser.ParseAttributes | src/heal/dsml.rs:398-463 | attributes with distinct names, each followed by a separator, up to the end of the tag |
| DsmlParser.ParseQuotedValue | src/heal/dsml.rs:465-484 | a quoted value with its escapes undone, and the cursor behind it |
| DsmlGrammar.ParserReadsExactlyCalls | src/heal/dsml.rs:172-484 | the parser reads a name, arguments and an extent if and only if the text starts with a call of a grammar told as text: any whitespace, quotes and backslashes hidden or bare where they may be, distinct keys with a separator between attributes, distinct parameter names, bodies without delimiters taken as they are or trimmed and read as JSON, double bars alone with values in attributes |
| DsmlGrammar.TrimTakesWhitespace | src/heal/dsml.rs:240-244 | the body of a JSON parameter is read without the whitespace around it, and with everything else |
| DsmlParser.StripEmptyEnvelopes | src/heal/dsml.rs:503-530 | the in-place stripping loop computes the stripped text |
| DsmlEnvelopes.StrippingCutsOnlyBlankEnvelopes | src/heal/dsml.rs:503-530 | stripping is a chain of steps that each cut one envelope of one dialect with only white space inside, and it ends when no such envelope is found |
| DsmlEnvelopes.SearchFindsFirstBlank | src/heal/dsml.rs:503-530 | paired from the left, each opening tag with the next closing tag behind it, the first envelope that is blank inside is found, and none if and only if no envelope is blank |
| DsmlEnvelopes.StripBehind | src/heal/dsml.rs:503-530 | text in front that cannot take part in a marker is untouched by stripping |
| DsmlPrinter.ParseInvertsPrint | src/heal/dsml.rs:14-40 | printing a call in the documented form of either dialect, with string parameters, JSON parameters and attributes, and parsing it gives back its name and its arguments, and leaves exactly the text behind it |
| DsmlRoundTrip.OneCallHeals | src/heal/dsml.rs:110-140 | a printed call that is the only opening of a text heals to that call, and the text around it remains |
| DsmlRoundTrip.EnvelopeHeals | src/heal/dsml.rs:14-40 | any number of printed calls in one envelope heal to exactly these calls, in order, and no visible text |
| DsmlRoundTrip.EnvelopeStrips | src/heal/dsml.rs:503-530 | one blank envelope behind marker-free text is all that stripping removes there |
| DsmlHeal.DsmlStreamFilter.Push | src/heal/dsml.rs:603-624 | a pushed delta moves the filter and emits as its step function says; once a marker was found everything is withheld |
| DsmlHeal.DsmlStreamFilter.Take | src/heal/dsml.rs:634-653 | the end of the stream heals what was withheld, keeps it raw when it does not parse, and leaves an empty filter with the same gate |
| Tags.LongestTagPrefixSuffix | src/heal/dsml.rs:663-673 | the loop over all beginnings of all markers finds the longest withheld tail |
| DsmlHeal.PushIsSafe | src/heal/dsml.rs:603-624 | what a push has emitted is never taken back, whatever arrives later |
| DsmlHeal.DsmlChunkInvariance | src/heal/dsml.rs:603-644 | for every way to cut a text into deltas: the text before its first marker, then the healed rest; a disabled filter passes everything |
| DsmlBlocking.StreamMatchesOneShot | src/heal/dsml.rs:110-140 | the streamed result is the one-shot parse of the whole text whenever the text before the first marker does not end in a non-empty proper beginning of a marker |
| DsmlRoundTrip.StreamMatchesOneShotExactly | src/heal/dsml.rs:603-644 | for marker-free text in front, the two agree on every continuation if and only if that text does not end in a beginning of a marker |
| DsmlRoundTrip.StreamDiffers | src/heal/dsml.rs:612-624 | for every front that does end so, a continuation on which the streamed result and the one-shot parse differ |
| DsmlBlocking.HealBehind | src/heal/dsml.rs:110-140 | text in front that cannot take part in a marker stays in front of the healed text |
| DsmlParser.HealDsmlChatMessage | src/heal/dsml.rs:539-564 | a message's healed calls go behind its own, its text becomes the healed text, and a message in which no call is healed is left alone |
| Think.ThinkStreamFilter.Push | src/heal/think.rs:60-98 | the drain loop decides everything about the pending text that can be decided and withholds the rest |
| Think.ThinkStreamFilter.Take | src/heal/think.rs:102-120 | the withheld rest goes to the channel that is open: an unterminated block is reasoning |
| Think.ThinkChunkInvariance | src/heal/think.rs:60-111 | for every way to cut a text into deltas, the reasoning and the text of one alternating scan over the whole text |
| Think.SplittingRemovesOnlyTags | src/heal/think.rs:60-98 | the text is bodies and tags in turn, the tags alternately open and close, no body holds a tag that would end it, and only the tags are missing from the two channels |
| Think.BareCloseTagStaysText | src/heal/think.rs:84-98 | a closing tag without an opening one is ordinary text |
| Think.UnterminatedBlockIsReasoning | src/heal/think.rs:102-111 | a block that is never closed is reasoning to the end of the stream |
| Think.StandardBlockIsReasoning | src/heal/think.rs:8-11 | for each of the three opening and three closing tags: what stands between them is reasoning, what stands before is text, and what stands behind is split as if it stood alone |
| Think.HealThinkChatMessage | src/heal/think.rs:133-162 | the blocking form leaves a message without an opening tag alone and splits any other as the stream would |
| Merge.FragmentedItemMerger.PushEvent | src/heal/merge.rs:160-184 | each event moves the merger and forwards as its step function says; a disabled merger forwards the event itself |
| Merge.FragmentedItemMerger.HandleAdded | src/heal/merge.rs:197-283 | an announcement moves the merger and forwards as its step function says; which announcements are dropped is told by `MergeRuns.AnnouncementIsDropped` |
| Merge.FragmentedItemMerger.CloseRun | src/heal/merge.rs:289-308 | closing a run records it and synthesizes its end when it was merged |
| Merge.FragmentedItemMerger.Finish | src/heal/merge.rs:567-571 | the end of the stream synthesizes nothing and forgets the runs |
| Merge.RewriteOutput | src/heal/merge.rs:412-467 | the completed rewrite is one pass that replaces every fragment of a run by the merged item at the first one's place |
| MergeReference.MergerRefinesRunGrouping | src/heal/merge.rs:160-308 | the event-by-event merger forwards exactly what cutting the stream into maximal runs and rewriting each of them gives, and records exactly the merged ones among them |
| MergeReference.ExtentIsMaximal | src/heal/merge.rs:197-283 | no event inside a run of that reference breaks it and the next one does; what breaks a run is told by `MergeRuns` |
| MergeReference.OnlyRunHeadsAreAnnounced | src/heal/merge.rs:197-250 | from any state, the announcements that are forwarded are those of the run heads |
| MergeRuns.AnnouncementIsDropped | src/heal/merge.rs:252-283 | an announcement is dropped if and only if the tracked item has its type and its optional call id, and otherwise goes out behind what it closes |
| MergeRuns.KeyChangesAreAnnounced | src/heal/merge.rs:197-283 | over every stream the client is told of an item exactly where the item type or the call id changes |
| MergeRuns.EveryCallIsAnnounced | src/heal/merge.rs:252-283 | every item type and call id announced upstream is announced to the client |
| MergeRuns.RunEventsMeetTheirFate | src/heal/merge.rs:320-405 | what becomes of every event of a run, told by the events alone: deltas behind a second announcement go out under the first one's id and index with their payload unchanged, repeated part announcements and the done events of merged items are dropped, everything else passes |
| MergeRuns.MergedRunIsSynthesized | src/heal/merge.rs:476-553 | a run of more than one announcement ends in the done events of one item that carries the first one's id, call id and name and the text of all deltas of its type |
| MergeRuns.SingleRunEndsSilently | src/heal/merge.rs:289-308 | a run of one announcement adds nothing at its end |
| MergeReference.PayloadsAreKept | src/heal/merge.rs:320-358 | no delta payload is lost, changed or moved |
| MergeReference.SynthesizedTextIsForwarded | src/heal/merge.rs:476-553 | the synthesized end of a merged run carries the concatenation of all its forwarded deltas, those from before the merge included |
| MergeIdentity.IdentityExactlyWhenHealthy | src/heal/merge.rs:160-184 | a stream passes unchanged if and only if no two adjacent announcements match and no announced item has a second content part |
| MergeIdentity.FreshMergerIdentity | src/heal/merge.rs:160-184 | the same for a fresh merger |
| MergeIdentity.MergerIsIdempotent | src/heal/merge.rs:160-184 | feeding the merger's own output through a fresh merger changes nothing |
| MergeCollapse.CompletedOutputCollapses | src/heal/merge.rs:412-467 | for every stream whose fragment ids are distinct: in each completed output every merged run is collapsed to the item of its synthesized done event where its first fragment stood, and every other item is kept in order |
| MergeCollapse.DistinctStreamsAreSelfOwned | src/heal/merge.rs:412-467 | when the fragment ids announced in a stream are distinct, every merged run owns the item made for it, which is what the collapse needs |
| Converter.StreamConverter.constructor | src/convert/response.rs:324-347 | a new converter has announced nothing and holds two fresh filters |
| Converter.StreamConverter.Start | src/convert/response.rs:358-374 | the opening event, once |
| Converter.StreamConverter.OnChunk | src/convert/response.rs:386-492 | one chunk: opening, healed deltas, tool-call fragments, finish reason, usage |
| Converter.StreamConverter.MergeToolCalls | src/convert/response.rs:420-475 | fragments are grouped by index; fragments without payload are skipped; ids, names and arguments are joined |
| Converter.StreamConverter.ReasoningDeltaEvents | src/convert/response.rs:496-528 | a reasoning delta, announced first when it is the first |
| Converter.StreamConverter.TextDeltaEvents | src/convert/response.rs:532-565 | a text delta, announced first when it is the first |
| Converter.StreamConverter.FlushHeal | src/convert/response.rs:596-635 | what the filters hold joins the text, and the healed calls get indexes above all others |
| Converter.StreamConverter.EmitFinish | src/convert/response.rs:653-842 | done events in index order, the live calls, the completed event, and the items for the session in canonical order |
| Converter.EmitCalls | src/convert/response.rs:729-810 | every live call is added, given its arguments and done, shown and stored as the step functions say; what it shows is told by `ConverterFinish.FinishedCallIsDecoded` |
| ConverterFinish.FinishedCallIsDecoded | src/convert/response.rs:109-121 | of every finished stream each call, where it is announced, where it is done, in the completed output and in the session, carries the namespace and the name that the decode map gives its name, and no namespace and its own name when the map has none |
| ConverterFinish.FinishedStreamCountsTokens | src/convert/response.rs:486-489 | the completed event names the tokens of the last usage that any chunk carried, in, out and their sum, and zeros without one |
| ConverterFinish.FinishedCallsAscend | src/convert/response.rs:616-634 | with the healed calls behind the others, all calls stand in ascending order of index |
| Converter.StreamConverter.Finish | src/convert/response.rs:581-589 | the finish sequence, once and only for a response that finished |
| ConverterTrace.ConverterKeepsProtocol | src/convert/response.rs:358-842 | every run keeps the stream protocol: opened once and first, indexes 0 to n-1 announced once and in order, every delta between its item's announcement and its end, every item done once with what its deltas add up to, the completed output listing them under their indexes, nothing behind it; it completes if and only if a finish reason was seen |
| ConverterTrace.FinishReasonIsSeen | src/convert/response.rs:481-483 | the converter knows a finish reason if and only if some chunk carried one |
| ConverterTrace.ReasoningComesFirst | src/convert/response.rs:396-418 | what one chunk brings of both channels is sent reasoning first |
| ConverterText.FinishedTextIsChunkInvariant | src/convert/response.rs:396-418 | the text of a finished run is the think-split text of the whole content without its leaked markup, however the content was cut, and the healed calls stand behind all native ones in the order of the text |
| ConverterText.FinishedReasoningInterleaves | src/convert/response.rs:402-415 | the reasoning is what each chunk brought natively followed by what was healed out of it; the healed parts alone are the reasoning of the one-shot split |
| ConverterText.PipelineIsReference | src/convert/response.rs:602-614 | the two incremental filters behind each other agree with the two one-shot functions behind each other |
| ConverterText.ArgumentsAccumulate | src/convert/response.rs:420-475 | interleaved fragments: the arguments of an index are the concatenation of its own fragments in order, and the calls stand in ascending order of index |
| ConverterText.ResentNameIsKept | src/convert/response.rs:449-468 | an upstream that sends a call's full name again with later deltas gets that name, not its repetition |
| ConverterFinish.SplitNameIsJoined | src/convert/response.rs:449-468 | a name sent in pieces, none of which starts with all that came before it, is put together in order |
| ConverterFinish.ExtendedNameReplaces | src/convert/response.rs:449-468 | a piece that starts with all that came before it replaces it |
| ConverterText.CallsAreSpokenOf | src/convert/response.rs:420-435 | over every run there is a call for an index if and only if some delta gave it an id, a name or arguments that are not empty |
| ConverterText.LastIdIsKept | src/convert/response.rs:436-448 | a call has the last id that is not empty among those sent for it, and keeps its own when none is sent |
| ConverterText.CallsAreIdentified | src/convert/response.rs:436-448 | no tool call is ever left with an empty id |
| ConverterText.LiveIsNamed | src/convert/response.rs:729-733 | the calls that are emitted are exactly those with a name |
| Blocking.ChatResponseToItems | src/convert/response.rs:149-194 | a complete answer becomes its reasoning, its message and its calls, each call with its own id or a fresh one and with the namespace and the name that the decode map gives its name |
| Blocking.HealAndConvert | src/proxy/chat.rs:480-491 | the blocking path: healed text, native and then healed reasoning, native and then healed calls |
| Blocking.StreamShowsTheSame | src/proxy/chat.rs:480-487 | stream and blocking path show the same text and calls under the side condition on the text before the first marker |
| Blocking.StreamMatchesBlocking | src/proxy/chat.rs:480-487 | a finished stream and the blocking path keep the same text and heal the same calls in the same order, under that condition |
| Blocking.StoredItemsMatchBlocking | src/proxy/chat.rs:480-509 | under that condition and with non-empty fresh ids, the items a finished stream stores are those the blocking path makes of the complete answer, if and only if every call of the answer and every healed call has a name and arguments that are not blank, and the reasoning healed out of the chunks, left where it comes in between the native reasoning, reads as if it all came behind |
| Blocking.ReasoningAgrees | src/convert/response.rs:402-415 | with the think gate shut, or without native reasoning, that last condition holds for every stream |
| FailingInputs.ReasoningIsReordered | src/convert/response.rs:402-415 | it fails for a chunk with an opened think block and a letter, followed by one with other native reasoning |
| FailingInputs.BlankArgumentsDiffer | src/convert/response.rs:729-750 | a call that comes without arguments is stored differently by the two paths |
| Driver.SendAll | src/proxy/chat.rs:247-271 | the send loops stop at the first send that fails |
| Driver.Drive | src/proxy/chat.rs:208-393 | the driver loop reads, converts, sends, and decides between completion, failure and saving |
| Driver.StayingClientLearnsTheOutcome | src/proxy/chat.rs:208-393 | a client that stays gets the run of the converter over the chunks read, and then its finish sequence or a failure: a stream that keeps the protocol and ends in exactly one of completed and failed; it is completed if and only if a finish reason was read and the sentinel behind it (or, with the quirk, the end of the stream), and then, if storing is on, the session saved is exactly the finished converter's items; otherwise none is |
| Driver.TerminalIsLast | src/proxy/chat.rs:323-382 | completed and failed come last and only once |
| Driver.LeavingClientGetsAPrefix | src/proxy/chat.rs:208-393 | a client that leaves after k events has got exactly the first k events of the one that stays, and the exact condition under which the session is saved all the same |
| FailingInputs.SavedWithoutCompletion | src/proxy/chat.rs:323-392 | a client that leaves with one event to come never hears of the completion, and its session is saved |
| Driver.IdleTimeoutNeverCompletes | src/proxy/chat.rs:217-288 | an idle timeout never completes a response and never saves a session, with or without the quirk, whether the client stays or leaves |
| Replay.PushItemMessages | src/convert/request.rs:295-398 | the look-ahead loop computes the recursive grouping of the items |
| Replay.Absorb | src/convert/request.rs:351-357 | the look-ahead takes exactly the run of calls that follows |
| Replay.GroupingIsPointwise | src/convert/request.rs:295-398 | there is one message for every item that starts one, in order, made of the run of calls behind it and of the reasoning last buffered before it |
| Replay.CallsShareTheTurn | src/convert/request.rs:351-387 | adjacent calls share one message, calls directly behind an assistant message share that one, each at its place |
| Replay.ReasoningIsUsedOnce | src/convert/request.rs:296-380 | a turn carries the buffered reasoning or else its own, and no buffered reasoning is used by two turns |
| Replay.CallsKeepOrder | src/convert/request.rs:295-398 | the tool calls of the replay are exactly the function calls in order |
| Replay.OutputsKeepOrder | src/convert/request.rs:489-502 | the tool messages of the replay are exactly the outputs in order |
| ReplayFields.MessagesCarryTheirItems | src/convert/request.rs:295-576 | field by field, every item that starts a message is sent with its role (developers as the system, unnamed speakers as the user), its shown content parts in order (plain text and a lone text part as plain text), and an output with its text and the id of its call |
| ReplayFields.CallsCarryTheirItems | src/convert/request.rs:417-445 | every function call is sent under its id, its namespace and a hyphen before its name if it has one, and its arguments or else an empty object |
| RoundTrip.TurnReplays | src/convert/request.rs:295-398 | a turn in canonical order with a text or a call is replayed as exactly one assistant message with its text, reasoning and calls, and a turn without both as none |
| Replay.MessagesSplit | src/convert/request.rs:295-398 | the items before a place that continues no turn are grouped as if nothing followed, and what follows starts with the reasoning they leave buffered |
| RoundTrip.TurnReplaysBehind | src/convert/request.rs:295-398 | replayed behind any items, a turn with a text or a call adds exactly one message with its text, its own reasoning and the given calls if and only if these are its calls and it has reasoning of its own, or none is buffered and a turn of calls only does not directly follow an assistant message or a call |
| FailingInputs.BufferedReasoningIsTaken | src/convert/request.rs:296-380 | behind reasoning that no turn took and a question, an answer without reasoning comes back with that reasoning |
| FailingInputs.CallsOnlyTurnIsAbsorbed | src/convert/request.rs:351-387 | a turn of calls only, directly behind an answer, adds no message |
| RoundTrip.FinishedStreamReplays | src/proxy/capture.rs:42-53 | the items of a finished stream, stored behind any history and replayed, add exactly the message the model wrote, its calls with their ids, names and arguments, if and only if the turn fits there and no called tool has an empty namespace in the request's decode map; without text and call they add nothing |
| RoundTrip.CallsSurviveExactly | src/convert/response.rs:109-121 | the stored calls of a turn come back with the ids, names and arguments of the model's if and only if every name is flat or has a non-empty namespace |
| RoundTrip.SavedSessionReplays | src/proxy/chat.rs:384-392 | the same of what the streaming task saves for a client that stays |
| RoundTrip.FinishedTurnIsStored | src/convert/response.rs:66-90 | what a finished stream stores before its calls: its reasoning, and its text as one text part of an assistant message, each unless it is empty |
| RoundTrip.NameSurvivesExactly | src/convert/response.rs:109-121 | a stored call is replayed under the name the model called if and only if that name is flat or its namespace is not empty; its id survives, and its arguments do up to blank ones |
| FailingInputs.NamelessCallIsRenamed | src/normalize.rs:228-267 | a call of a function declared inside a namespace with an empty name is replayed under another name |
| RoundTrip.RequestNamesEncodeBack | src/convert/request.rs:143-175 | in the decode map of every request, hoisted and top-level sources together, encoding a value gives its key back |
| RoundTrip.OfferedNamesDecode | src/convert/request.rs:143-175 | every name under which a request offers inner functions only, declared in its history, its input or its tools, decodes |
| Tools.ToolFlattener.PushToolClassified | src/normalize.rs:184-213 | one declared tool: reported, refused as a duplicate, or appended |
| Tools.ToolFlattener.PushNamespaceInnerTools | src/normalize.rs:228-267 | the tools of a namespace are taken in order as offered; under which names they are offered is told by `ToolOffers.EveryDeclaredToolIsOffered` |
| Tools.ToolFlattener.PushEntries | src/normalize.rs:113-145 | the flattening loop takes all candidates in order |
| Tools.NormalizeChatTools | src/normalize.rs:346-377 | the flat list and the decode map of a request's tools |
| Tools.FlatNamesAreUnique | src/normalize.rs:150-160 | no two named entries of the flat list share a name |
| Tools.FirstDefinitionWins | src/normalize.rs:150-160 | under every name the flat list holds the first definition offered, and nothing when none was |
| Tools.MapDecodesKeptInnerTools | src/normalize.rs:228-267 | a name decodes to a namespace and an inner name if and only if the definition kept under it is that inner function |
| Tools.EncodingUndoesDecoding | src/normalize.rs:60-62 | encoding a value of the map gives its key back |
| Tools.ReportsAreExact | src/normalize.rs:184-213 | a dropped type is reported if and only if it occurs, a name if and only if some definition offered under it when it was taken differs from the one kept, and none is reported twice |
| Tools.RequestBody.NormalizeResponsesRequest | src/normalize.rs:289-328 | the body becomes its normalized form; which tools that binds and what stays in the input is told by `ToolOffers.NormalizingBindsDeclaredTools` |
| ToolOffers.EveryDeclaredToolIsOffered | src/normalize.rs:112-145 | declarations offer, in order and nothing else, every direct tool and every tool of every namespace: a named function of a named namespace under both names joined by a hyphen exactly when encoding is wanted, any other under its own name |
| ToolOffers.NormalizingBindsDeclaredTools | src/normalize.rs:289-328 | normalizing keeps the bound tools and binds behind them, in order and under its own name, every mappable tool declared in the input that finds its name free; declarations leave the input and nothing else does |
| ToolOffers.EveryDeclaredToolIsBound | src/normalize.rs:289-328 | no declared tool is lost: behind normalizing its name is bound |
| ToolOffers.ChatToolsAreBound | src/normalize.rs:346-377 | the tool list of a chat request is, in order, every declared tool that finds free the name it is offered under |
| Tools.NormalizingTwiceIsNormalizingOnce | src/normalize.rs:289-328 | normalizing a request a second time changes nothing |
| Sse.BoundaryIsFirst | src/upstream.rs:261-278 | the boundary found is the first delimiter from the offset on, two or four bytes long; none means there is none |
| Sse.ResumedScanIsFullScan | src/upstream.rs:148-184 | resuming where no delimiter can start gives what a scan from the start gives |
| Sse.AppendResumes | src/upstream.rs:148-184 | appended bytes can complete a delimiter only in the last three bytes before them |
| Sse.BoundaryStable | src/upstream.rs:261-278 | no delimiter that starts later can complete before an earlier one |
| Sse.SseSplitter.Next | src/upstream.rs:148-184 | the next block is a function of the remaining bytes, however they are cut into chunks |
| Sse.AllBlocks | src/upstream.rs:148-184 | taken one by one to the end, the blocks are those of all bytes together, however they were cut |
| Sse.BlocksLoseNothing | src/upstream.rs:148-184 | the blocks concatenate to the input but for a delimiter-free tail, all white space when the stream ended cleanly |
| Sse.BlocksEndAtDelimiter | src/upstream.rs:148-184 | every block ends in the first delimiter it contains, but for a last one without any |
| SseBlock.ParseSseBlock | src/upstream.rs:201-213 | the last event name and the data lines joined by line feeds |
| SseBlock.BlockReadsBackExactly | src/heal/merge.rs:598-600 | a written block is read back if and only if its name and its data are single lines that do not end in a carriage return |
| SseBlock.BlockReads | src/upstream.rs:201-213 | for single lines the reading gives both back up to a carriage return at their end |
| Capture.RelayBuffer.TrimCompletedPrefix | src/proxy/capture.rs:103-118 | searching only where a marker can have been completed finds the first marker of the whole buffer, and trimming leaves the suffix from it |
| Capture.WindowIsEnough | src/proxy/capture.rs:103-118 | a marker that was not complete before can start only in the last bytes before the new ones |
| Capture.TrimmingKeepsLastCompleted | src/proxy/capture.rs:69-92 | trimming to the first marker does not change what the last completed event is found to carry |
| Capture.RelayBuffer.Forward | src/proxy/passthrough.rs:213-217 | one round of the relay keeps the buffer the stream so far from its first marker on |
| Capture.CaptureIsChunkInvariant | src/proxy/capture.rs:69-118 | for every cut into chunks the relay keeps exactly the suffix of the stream from the first marker, and reads from it what the whole stream would give |
| CaptureBlock.CapturedIsCarriedExactly | src/proxy/capture.rs:69-92 | for the block of the last marker, whatever stands around it: when the lines that the capture takes are data lines of the block, the captured data is what the block carries if and only if these are all of its data lines (none up to the marker's line, none behind another line) and behind the colon of each there is a space or nothing; when it finds no line in the block, it takes what stands behind it |
| CaptureBlock.InterleavedDataIsCut | src/proxy/capture.rs:73-84 | a block with another line between its data lines carries both and is captured up to that line |
| CaptureBlock.IndentedDataIsTaken | src/proxy/capture.rs:76-84 | a `data:` line behind white space carries nothing in its block and is captured |
| CaptureBlock.AgreesByChance | src/proxy/capture.rs:73-84 | a block whose only data line is missed, and whose indented line is taken, with the same text: there the texts agree although the lines do not |
| CaptureBlock.UnspacedDataIsLost | src/proxy/capture.rs:76-84 | a data line with something else behind its colon carries its data and is captured as nothing |
| CatalogCache.StepKeepsInv | src/models_cache.rs:109-328 | every step of every task and of every configuration writer, and the loss of a request at any of its awaits, keeps the protocol's invariant |
| CatalogCache.CacheOnlyAdvances | src/models_cache.rs:316-328 | over every run an entry is never removed once stored, and the cached version never goes backwards |
| CatalogCache.EntriesAreBuilt | src/models_cache.rs:272-328 | the cached body and the body of every answer were built from the configuration whose fingerprint they carry |
| CatalogCache.RefreshesNeverOverlap | src/models_cache.rs:177-182 | over every run two refreshes never overlap |
| CatalogCache.AtMostTwoRefreshes | src/models_cache.rs:129-139 | a caller runs at most two refreshes |
| CatalogCache.OnlyTheLockBlocks | src/models_cache.rs:142-173 | a task cannot move if and only if it has ended or waits for a lock another task holds; in particular no expectation of an entry ever fails |
| CatalogCache.QuietGetIsCurrent | src/models_cache.rs:158-226 | when no two configurations share a fingerprint, a request that met an entry and saw no configuration write answers with the current configuration's body |
| CatalogRefresh.StaleGetSpawnsRefresh | src/models_cache.rs:142-157 | a background refresh is spawned if and only if a request is about to be served an entry with the fingerprint it read that was not fresh |
| CatalogRefresh.StaleEntryIsRevalidated | src/models_cache.rs:142-157 | with the lock free, a request that meets an entry stale by time alone answers with it at once, and the refresh it spawned leaves the current configuration in the cache |
| CatalogRefresh.RefreshesOnlyWhenNeeded | src/models_cache.rs:196-222 | a refresh begins only with nothing cached, or while the entry is not fresh for the fingerprint it is to bring about, or in the background under a free lock: who waited for another's refresh does not repeat it; it is forced exactly when it is its caller's second |
| CatalogRefresh.FreshEntryNeedsNothing | src/models_cache.rs:109-113 | a request that finds a fresh entry answers with it at once, a refresh that finds one is over, and neither spawns anything |
| CatalogExact.QuietGetIsCurrentExactly | src/models_cache.rs:109-226 | over every run, when no two configurations share a fingerprint: a request during which nothing is written answers with the current configuration on every continuation, if and only if it does not start while nothing is cached and some task may still leave an older body behind (among them a request that may be dropped before it refreshes again) |
| CatalogExact.GetIsBehind | src/models_cache.rs:121-140 | from every such state with nothing cached, a continuation in which the request answers with the older configuration that the task holds |
| CatalogExact.ColdGetMayBeBehind | src/models_cache.rs:121-140 | such a state is reached: a reload's refresh overtaken by one write |
| CatalogExact.HolderCanMove | src/models_cache.rs:177-182 | over every run, a task that waits for the lock waits for another task that can move |
| CatalogExact.NeverStuck | src/models_cache.rs:109-222 | over every run, some task can move if and only if some task has not ended, and without new calls and writes only a bounded number of steps is left, whoever moves or is dropped |
| SessionStore.SessionState.Save | src/session.rs:145-173 | an oversized save changes nothing; any other keeps the newest sessions within both caps and evicts only when needed |
| SessionStore.EstimatedBytesIsLength | src/session.rs:145-152 | the size of a conversation counts every character of its items once |
| SessionStore.SessionState.Get | src/session.rs:185-201 | a hit is what was stored, and renews its recency before expired sessions are pruned; an entry not pruned yet is a hit |
| SessionStore.SessionState.EnforceLimits | src/session.rs:226-236 | the eviction loops: nothing expired stays, whatever goes is no more recent than whatever stays, nothing goes without need |
| SessionStore.SessionState.RemoveExpired | src/session.rs:246-257 | exactly the expired sessions go |
| SessionStore.SessionState.RemoveOldest | src/session.rs:265-274 | one session that no other precedes in recency goes |
| SessionStore.SessionState.RemoveEntry | src/session.rs:279-283 | the running total stays the sum of the stored sizes |
| SessionStore.SessionState.Cleanup | src/session.rs:208-211 | exactly the expired sessions go |
| SessionStore.SaveStaysWithinLimits | src/session.rs:145-173 | after every save the total size and the count are within their caps |
| SessionStore.SavedSurvives | src/session.rs:145-173 | with a strictly increasing clock the session just saved survives when the cap is at least one |
| SessionStore.RunsStayFaithful | src/session.rs:145-283 | over every run of saves, lookups and prunings, what is stored under an id is what was last kept under it, within the caps |
| ResponsesHealer.ResponsesStreamHealer.PushEvent | src/heal/responses.rs:90-118 | each upstream event is forwarded, rewritten, withheld or preceded by injections as its step function says |
| ResponsesHealer.ResponsesStreamHealer.HealTextDelta | src/heal/responses.rs:176-212 | a text delta through both filters: passed as it was, rewritten, or withheld |
| ResponsesHealer.ResponsesStreamHealer.ReleaseUntrackedTail | src/heal/responses.rs:129-143 | a withheld tail goes out ahead of a closing event as long as nothing has fired |
| ResponsesHealer.ResponsesStreamHealer.RewriteCompleted | src/heal/responses.rs:267-381 | tail, calls, the rewritten output, the end of the injected reasoning, the completed event |
| ResponsesHealer.ResponsesStreamHealer.RewriteOutput | src/heal/responses.rs:322-365 | the rewritten output of the step function; which messages it heals is told by `ResponsesHealing.CompletedCarriesForwardedText` |
| ResponsesHealer.ResponsesStreamHealer.SetMessageText | src/heal/responses.rs:484-492 | the text of every text part, and no other part, is replaced |
| ResponsesHealer.ResponsesStreamHealer.InjectCalls | src/heal/responses.rs:415-452 | each healed call is added, given its arguments and done, under the next index |
| ResponsesHealer.ResponsesStreamHealer.Finish | src/heal/responses.rs:149-172 | at the end of the stream what is still withheld goes out, once |
| ResponsesHealing.HealedTextIsForwardedText | src/heal/responses.rs:176-212 | at every point of every run the healed text is the concatenation of all forwarded text deltas |
| ResponsesHealing.CompletedCarriesForwardedText | src/heal/responses.rs:312-365 | the completed event that is sent carries in every text part of the message announced last, or of every message when none was announced, exactly the text of all forwarded deltas, keeps its other parts and items in order, and gains the injected reasoning before its first message and the injected calls at its end |
| ResponsesHealing.EchoCarriesForwardedText | src/heal/responses.rs:222-239 | once something has fired, a full-text echo carries exactly the text of the deltas forwarded so far |
| ResponsesHealing.ItemDoneCarriesForwardedText | src/heal/responses.rs:241-265 | once something has fired, an item done event is healed in the same way, with the text of the deltas forwarded so far |
| ResponsesHealing.TailsAreAddressed | src/heal/responses.rs:385-413 | a withheld tail goes out under the id and the index of the message announced last |
| ResponsesFiring.FiresExactly | src/heal/responses.rs:176-212 | over every run something has fired if and only if the text of the deltas since the last closing event has come to hold a marker or an opening tag, each where its filter is on |
| ResponsesFiring.HealthyStreamIsUnchanged | src/heal/responses.rs:90-143 | when it never has, the forwarded text is the text that came in and every other event is forwarded as it was, in order |
| ResponsesQuiet.StandardIsSeparate | src/heal/think.rs:8-11 | the program's tags and markers meet the condition of that result |
| ResponsesFired.FiredStreamIsOneShot | src/heal/responses.rs:267-312 | when it has, by the completed event, the final text is the text let go before that and the one-shot healing of all deltas behind it together, and so are the reasoning and the calls |
| ResponsesFired.NothingFollowsCompleted | src/heal/responses.rs:112-172 | a parseable completed event is forwarded last and once, and the end of the stream adds nothing behind it |
| ResponsesInjected.InjectedItemsKeepProtocol | src/heal/responses.rs:415-480 | injected items have the indexes 10000 and up, each announced once and in order, with deltas that add up to its done form, each done; and the done forms are those of the items that the completed output gains |
| ResponsesInjected.TruncatedStreamLeavesReasoningOpen | src/heal/responses.rs:145-172 | when no completed event comes behind what fires, every injected call is still done, and the injected items are all done if and only if the one-shot healing of the deltas that were not let go has no reasoning |
| ResponsesInjected.OpenedBlockStaysOpen | src/heal/responses.rs:145-172 | a stream of one delta `<think>a` leaves its injected item open |
| HealedRelay.HealthyRelayKeepsText | src/proxy/passthrough.rs:243-322 | the merger and the healer behind each other: while nothing leaks behind the merger, the client gets the text of the upstream's deltas, and every other event that the merger lets through, in order |
| HealedRelay.CompletedIsMergedAndHealed | src/proxy/passthrough.rs:243-322 | for every stream whose fragment ids are distinct, the completed output that the client gets has every merged run collapsed in place and every other item kept in order, as it is while nothing has leaked, and otherwise with the forwarded text in the message announced last, or in every message when none was, and the injected items |

## Left out

- `parse_sse_stream` as a loop of its own: it shares the boundary search and its resume offset with `split_sse_events`, which is modelled; its dropping of blocks without data is not.
- UTF-8: decoding with replacement characters is not modelled; text is characters and scanned streams are bytes.
- JSON: reading and writing text is not modelled, so a re-encoded event is not told from a verbatim one with the same payload, and a tool call without `arguments` counts as having the empty object.
- Only the first choice of a chunk or answer is part of the model, as the code reads no other.
- `heal_responses_body`: the blocking form on the Responses path, which keeps an empty think block that the stream removes.
- ResponsesFiring.HealthyStreamIsUnchanged: says nothing about how the text is cut into deltas, which the healer may change.
- The merger's `merged_text`, `merged_arguments` and `merged_input` accumulators are one field of the modelled run, as a run has one type.
- `convert_tools`, `to_chat_request`'s parameters and the insertion of the system message: simple lookups.
- Item ids and `status` fields stamped by `build_completed_response`, and token usage as a 32-bit number: usage is a natural number here.
- The order in which a hash map breaks ties between sessions of equal recency: the model allows any.
- Fingerprints are opaque numbers; nothing is claimed about bodies of equal fingerprints.
- `fast_hit` is one step at its lock, with the template check left open; what a task does between two locks is one step.
- HealedRelay.CompletedIsMergedAndHealed: says nothing of the other fields of a completed event whose output the merger rewrote, which the merger's model does not keep.
- CaptureBlock.CapturedIsCarriedExactly: says nothing of whether the two texts happen to be equal when the capture takes an indented line or a line of another block, which happens by chance (`CaptureBlock.AgreesByChance`).
- The catalog cache is a transition system over values and not a class, as its methods interleave at every await; sharing of one cache object through reference counting is not modelled.
- The converter's ordered map of tool calls is a list kept in ascending order of index.
- HTTP, timeouts as clocks, metrics, logging, configuration files, key lookup and catalog building.
