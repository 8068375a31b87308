# Verification of Symposium's protocols and algorithms

Symposium is a chat and walkthrough assistant for editors.  This project models the
parts of it whose correctness is hard to see from the code and proves what they
promise.  `dafny verify dfyconfig.toml` checks everything.

Code that changes state in place is a class or a method with loops, proved equal to a
function on values; the theorems are about that function, over all inputs or all runs.

## What is modelled

**Chat delivery** (`Chat*.dfy`).  The extension numbers each tab's messages and keeps
them until they are acknowledged; it posts live while the view is visible and replays
the queues on `webview-ready`.  The webview drops indices it has seen, saves its state
and acknowledges.  `ChatProvider` and `ChatWebview` are the two sides, `ChatSystem` the
steps of both with two FIFO channels between them, page deaths and extension restarts.

- In every run whatsoever, processed indices strictly increase and the cards hold exactly
  the text of what was processed (`AlwaysIncreasing`).
- A run keeps extension and webview consistent throughout exactly when each `new-tab` is
  handled while nothing of its tab has been seen or is on its way
  (`StartConsistentIffRegistered`).  In those runs, with no further assumption on timing,
  the queue is the log of what was sent since the registration, above the highest
  acknowledgement, and what was not seen is still queued (`AlwaysConsistent`).  The
  theorems about runs below ask for the same (`AllRegister`).
- The code does not make sure of that: it sends to a tab as soon as the tab exists, and
  the handler of `new-tab` waits for the settings first
  (`vscode-extension/src/chatViewProvider.ts:553`).  A late `new-tab` starts the index at 0
  again, and the next message is processed if and only if nothing of the tab was seen or
  on its way (`RegisteredPostIsProcessedIffClear`); the queue is forgotten, and what was
  sent before is all processed if and only if the tab was caught up
  (`RegistrationLosesIffNotCaughtUp`).  `LateRegistrationLosesAMessage` is such a run.
- A live post, to a page that runs or is still loading, is safe exactly when its tab is
  caught up, that is, when every queued message has been seen or is on its way to the
  present page (`LivePostIsSafeIffCaughtUp`).  Under that discipline delivery is exactly
  once and in order (`ExactlyOnceInOrder`).
- The code does not keep that discipline.  The design text
  (`md/design/vscode-extension/webview-lifecycle.md:107-115`) has normal delivery resume
  after `webview-ready`; the code posts whenever the view is visible, so a post made
  before `webview-ready` is handled overtakes the backlog, which is then dropped as
  duplicate and forgotten (`UnsafePostLoses`; `LivePostBeforeReadyLosesBacklog` is such a
  run).  The documented handshake would suffice (`HandshakeDelivers`).
- Handling `webview-ready` brings a tab to exactly what was sent to it if and only if it
  has no gap (`ReplayDeliversIffInOrder`), whatever the state of other tabs.
- An acknowledgement that dies with its page is never repeated, so its message stays
  queued until a later one is acknowledged (`QueueEmptiesUnlessAckWasLost` is exact).
- The cards of a page, with their order, kinds and bodies, are those read off its messages
  and prompts: text is parted exactly by prompts, completions, errors and new tool calls
  (`CardsAreLaidOut`).
- A page that was reloaded has forgotten which tool calls have cards: over a whole run a
  tool call has one card for each life of the page that processed it
  (`OneCardPerPageLife`).

**Dialect** (`Dialect*.dfy`, `SortedMap.dfy`), a small expression language.  The
tokenizer and the recursive-descent parser over one shared token iterator are proved
equal to functions; those accept exactly the layouts of the yields of grammar trees, of
which each token list has one; a printer is undone by the parser in each of the three
quote styles, and whatever was parsed can be printed and parsed again.  A tokenizer error
comes exactly where no token can be read (`ErrorIffStopped`), and a syntax error is about the
first token with which no program goes on (`FirstWrongToken`).  The evaluator's effects on
its host are exactly a prefix of the post-order list of calls, and its value is the program
with each call replaced by what it returned (`ValueIsFilled`).  The comment
that function names are case-insensitive (`outdated/mcp-server/src/dialect.rs:188`)
holds of calls (`CaseInsensitive`), but not of registered names: some program text makes
the host run a function exactly when the name it is registered under is a word of letters
without an upper-case ASCII letter (`ReachableIffLowerWord`), so one registered as
`git_diff` or `Find` cannot be called at all.

**Message bus** (`Bus*.dfy`).  The repeater (total order, log suppression, bounded
history), the clients of the daemon, the dispatch actor with its pending replies, the
reference store, any number of servers on one bus, and the daemon's idle clock.  A `send`
is settled by the first response to its id, and every store and Marco read is answered
once (`WritesRequestsAndAnswers`).  Servers
that write to the repeater and read from their mailboxes are shown to refine the servers
on one bus (`RepeaterRefinesBus`), so what is proved of those holds of these.

**Reverse-applying a diff** (`Diff*.dfy`, `Reverse*.dfy`).  The hunks collected from
libgit2 and the text before the change rebuilt from the text after it, against an
independent meaning of a patch.  The rebuilt text is the original exactly when no line
the hunks hold of it ends in white space (the collector trims; a carriage return counts)
and no hunk without new lines, below the top of the file, removes anything but copies of
the line before it (`RebuiltIffFaithful`).  Where every hunk has a line of the new text or
stands at its top, only the first part matters (`RebuiltWhenAnchored`).  Diffs are generated with three lines of context
(`outdated/mcp-server/src/git/git_service.rs:119`), so a hunk begins with an unchanged line
unless there is none before it, and that gives such hunks, new files and files written anew
included (`RebuiltWithContext`, with a witness, `TrailingSpaceIsLost`).  The second part
concerns the function taken alone (`DeletionWithoutContextIsMisplaced`).  The collector
takes the marker for a missing newline at the end of a file for an unchanged line: it comes
back as two lines of text and takes up a line of the new text, so the text before is never
rebuilt from a diff with a marker (`RebuiltIffUnmarked`, with a witness,
`MarkerComesBack`).

**Symbols, links, walkthroughs** (`SymbolIndex` with `SymbolOrder`, `SymposiumUrl` with `UrlEncoding`,
`WalkthroughEvents` with `WalkthroughYaml`, `WalkthroughText` and `WalkthroughBlocks`).  The
bounded collection of symbols is the beginning of the list of all symbols by file and
position; links survive being written and read under an
exact condition, through UTF-8 and the form encoding of section 5 of the WHATWG URL
Standard; the rewriting of walkthrough events is a map over the segments of a document; the
text of a special block is read back but for carriage returns before line feeds and one
line feed at its end.

## Model

| member | source | states |
|---|---|---|
| ChatProvider.ChatViewProvider.NewTab | vscode-extension/src/chatViewProvider.ts:550-560 | registering a tab empties its queue and starts its index at 0 |
| ChatProvider.ChatViewProvider.SendToWebview | vscode-extension/src/chatViewProvider.ts:944-982 | a message gets the tab's next index, is queued, and is posted when the view is visible; nothing happens without a view or a tab id |
| ChatProvider.ChatViewProvider.HandleMessageAck | vscode-extension/src/chatViewProvider.ts:846-861 | acknowledgements are cumulative: what stays is the queue above the index |
| ChatProvider.ChatViewProvider.ReplayQueuedMessages | vscode-extension/src/chatViewProvider.ts:927-942 | every queued message is posted, tab by tab in the order of the table |
| ChatWebview.SymposiumWebview.constructor | vscode-extension/src/symposium-webview.ts:70-109 | saved state is used only when its activation id is the current one |
| ChatWebview.SymposiumWebview.OnMessage | vscode-extension/src/symposium-webview.ts:637-931 | a seen index is dropped silently; otherwise the message is shown, the index recorded, the state saved and an acknowledgement sent |
| ChatWebview.SymposiumWebview.HandleToolCall | vscode-extension/src/symposium-webview.ts:232-272 | a known tool call updates its card, a new one adds a card and takes over the stream |
| ChatWebview.SymposiumWebview.ShowText | vscode-extension/src/symposium-webview.ts:647-689 | text goes to the current text card, or to a new one after anything else |
| ChatWebview.SymposiumWebview.OnChatPrompt | vscode-extension/src/symposium-webview.ts:535-560 | a prompt adds the user's card and an empty text card to stream into |
| ChatTranscript.TranscriptConserved | vscode-extension/src/symposium-webview.ts:647-719 | text cards in creation order hold exactly the chunks received, concatenated |
| ChatTranscript.OneCardPerToolCall | vscode-extension/src/symposium-webview.ts:232-272 | in one life of a page each tool call adds at most one card, exactly when it occurs |
| ChatToolCards.OneCardPerPageLife | vscode-extension/src/symposium-webview.ts:232-272 | over any run with reloads and restarts a tool call has as many cards as there were lives of the page in this activation that processed it |
| ChatTranscript.RepeatedToolCallKeepsSegment | vscode-extension/src/symposium-webview.ts:232-272 | a repeated tool call between two chunks does not split the text card |
| ChatLayout.CardsAreLaidOut | vscode-extension/src/symposium-webview.ts:535-719 | the cards of a page, in order, read off all its messages and prompts: a text card for each prompt and for each chunk that continues none, with the chunks up to the next prompt, completion, error or new tool call; a tool card where its tool is first called, with the title given last |
| ChatLayout.NewToolCallPartsText | vscode-extension/src/symposium-webview.ts:232-272 | a new tool call ends the text before it: its card comes next, and text after it gets a card of its own behind that |
| ChatAnyRun.AlwaysIncreasing | vscode-extension/src/symposium-webview.ts:637-931 | in every run whatsoever: processed indices strictly increase, the saved index is the last of them, the cards show the processed text |
| ChatConsistency.NextKeeps | vscode-extension/src/chatViewProvider.ts:846-982 | every step of extension, webview and channels keeps the system invariant, but for a `new-tab` handled while its tab is not clear |
| ChatRegistration.RegistrationKeepsIffClear | vscode-extension/src/chatViewProvider.ts:550-560 | that step keeps it if and only if nothing of the tab was seen or is on its way |
| ChatRegistration.StartConsistentIffRegistered | vscode-extension/src/chatViewProvider.ts:550-560 | a run is consistent throughout if and only if every `new-tab` finds its tab clear |
| ChatRegistration.RegisteredPostIsProcessedIffClear | vscode-extension/src/chatViewProvider.ts:944-982 | after `new-tab` the next live message is processed if and only if nothing of the tab was seen or on its way, else dropped as a duplicate |
| ChatRegistration.RegistrationForgetsQueue | vscode-extension/src/chatViewProvider.ts:559 | handling `new-tab` forgets unacknowledged messages if and only if there were any |
| ChatRegistration.RegistrationLosesIffNotCaughtUp | vscode-extension/src/chatViewProvider.ts:550-560 | what was sent before a late `new-tab` is all processed if and only if the tab was caught up; the rest is nowhere |
| ChatDelivery.AlwaysConsistent | vscode-extension/src/chatViewProvider.ts:846-982 | in every run in which each `new-tab` finds its tab clear: processed indices strictly increase and match the log sent since then, the queue is the sent log above the highest ack, everything unseen is queued, the cards show the processed text |
| ChatDelivery.ExactlyOnceInOrder | vscode-extension/src/chatViewProvider.ts:927-982 | if live posts are made only to caught-up tabs, the processed log is exactly a prefix of the sent log |
| ChatTheorems.LivePostIsSafeIffCaughtUp | vscode-extension/src/chatViewProvider.ts:971-976 | posting live, to a page that runs or is still loading, loses nothing if and only if the tab is caught up |
| ChatTheorems.UnsafePostSkips | vscode-extension/src/symposium-webview.ts:637-644 | a live post to a tab that is not caught up, on a page that runs or is still loading, makes the webview skip the message before it |
| ChatAnyRun.SkippedIsLost | vscode-extension/src/symposium-webview.ts:637-644 | a skipped message is never processed later in the activation, in any run |
| ChatTheorems.UnsafePostLoses | vscode-extension/src/symposium-webview.ts:637-644 | so the message skipped by an unsafe live post is lost, whatever replays and reloads follow |
| ChatReplay.ReplayDeliversIffInOrder | vscode-extension/src/chatViewProvider.ts:786-790 | after `webview-ready` is handled and the channel drained, a tab's log is exactly what was sent to it, if and only if the tab had no gap |
| ChatReplay.QueueEmptiesUnlessAckWasLost | vscode-extension/src/symposium-webview.ts:922-931 | after a replay with both channels drained a tab's queue is empty if and only if something was delivered, or the last ack was not lost |
| ChatReplay.RunOrderGrows | vscode-extension/src/chatViewProvider.ts:927-942 | replays go through the tabs in the order in which they first had a queue |
| ChatTheorems.DropsOnlyItsOwnDuplicates | vscode-extension/src/symposium-webview.ts:637-644 | across page deaths and restarts a message is dropped only if the current activation processed that index or a later one |
| ChatTheorems.RestartForgets | vscode-extension/src/symposium-webview.ts:74-109 | state of an older activation hinders no tab of a new one |
| ChatTheorems.HandshakeDelivers | md/design/vscode-extension/webview-lifecycle.md:107-115 | the documented handshake makes every run deliver exactly once and in order |
| ChatWitnesses.LivePostBeforeReadyLosesBacklog | vscode-extension/src/chatViewProvider.ts:971-976 | a reachable state in which a live post before `webview-ready` has made the extension forget an unprocessed message |
| ChatWitnesses.LateRegistrationLosesAMessage | vscode-extension/src/chatViewProvider.ts:550-567 | a reachable state in which a late `new-tab` makes the webview drop a new message |
| SortedMap.InsertAllAscending | outdated/mcp-server/src/dialect/parser.rs:115-172 | an object's keys come out ascending and each holds the value written last, whatever the order and repetition in the text |
| DialectLexer.Tokenize | outdated/mcp-server/src/dialect/parser.rs:194-301 | the tokenizer's loops compute the specified tokens, spans and errors |
| DialectLexer.TakeChars | outdated/mcp-server/src/dialect/parser.rs:302-321 | number and word runs are maximal, and byte positions exact |
| DialectSpelling.TokenizesIffLaidOut | outdated/mcp-server/src/dialect/parser.rs:194-321 | tokenizing succeeds exactly on white space and spelled tokens kept apart, with their kinds and spans: nothing is lost between tokens |
| DialectStrings.StringScanned | outdated/mcp-server/src/dialect/parser.rs:230-274 | a string literal is read as the value its characters and escapes spell, and as no other |
| DialectSpelling.TokenSpansOrdered | outdated/mcp-server/src/dialect/parser.rs:194-321 | spans are non-empty, ordered, disjoint and inside the input |
| DialectDescent.ParseInput | outdated/mcp-server/src/dialect/parser.rs:48-59 | the parser as it runs computes the specified result, including leftover tokens as an error |
| DialectDescent.Tokens.ParseAst | outdated/mcp-server/src/dialect/parser.rs:61-174 | recursive descent over one mutable iterator: value and position, or the first error |
| DialectDescent.Tokens.ParseFields | outdated/mcp-server/src/dialect/parser.rs:115-172 | the loop of an object, inserting into a sorted map |
| DialectGrammar.ParsesIffTree | outdated/mcp-server/src/dialect/parser.rs:48-174 | tokens parse to a value exactly when they are the yield of a grammar tree that means it |
| DialectGrammar.Unambiguous | outdated/mcp-server/src/dialect/parser.rs:61-174 | one token list has one tree, optional commas included |
| DialectGrammar.CommasDoNotMatter | outdated/mcp-server/src/dialect/parser.rs:74-167 | adding or leaving out the optional commas never changes the value |
| DialectGrammar.AcceptedIsNested | outdated/mcp-server/src/dialect/parser.rs:74-167 | every accepted input is properly nested |
| DialectGrammar.ErrorsInside | outdated/mcp-server/src/dialect/parser.rs:61-174 | parser errors point into the input; the "expected close" errors taken after the loops of calls and arrays never occur |
| DialectPrinter.ParsesIffLaidOutTree | outdated/mcp-server/src/dialect/parser.rs:48-59 | what the whole front end accepts: any layout of any tree, with the tree's meaning |
| DialectPrinter.ParseUndoesPrint | outdated/mcp-server/src/dialect/parser.rs:48-321 | `parse(print(a))` is `a`, in each quote style, for every expressible value |
| DialectPrinter.ParsedIsWellFormed | outdated/mcp-server/src/dialect/parser.rs:48-174 | parsed objects are sorted maps all the way down |
| DialectReach.ParsedSurvives | outdated/mcp-server/src/dialect/parser.rs:48-321 | whatever was parsed can be printed, in each quote style, and is parsed again to the same value |
| DialectPrinter.ErrorsPointInside | outdated/mcp-server/src/dialect/parser.rs:48-321 | every error of tokenizer and parser has a position at most the input's length |
| DialectLexErrors.ErrorIffStopped | outdated/mcp-server/src/dialect/parser.rs:194-321 | tokenizing ends in an error exactly when the input is laid out up to a character that begins nothing, or a string that is not closed, or has a backslash with a wrong character or nothing behind it; and the error says which, and where |
| DialectLexErrors.PositionsAreBytes | outdated/mcp-server/src/dialect/parser.rs:194-321 | positions count the bytes of UTF-8 |
| DialectBlame.FirstWrongToken | outdated/mcp-server/src/dialect/parser.rs:48-174 | a syntax error is about the first token with which no program goes on, or about the end of an input that some program goes on from, and gives its place |
| DialectEval.DialectInterpreter.EvaluateAst | outdated/mcp-server/src/dialect.rs:87-120 | the evaluator's loops compute the specified value, host data and call log |
| DialectEval.DialectInterpreter.CallFunctionPositional | outdated/mcp-server/src/dialect.rs:122-149 | look-up by lower-cased name, arguments bound to parameters, one argument too many is an error before the call |
| DialectEvalOrder.EvaluationOrder | outdated/mcp-server/src/dialect.rs:87-149 | calls made are a prefix of the post-order list of calls, all of it on success; errors name the call that comes next or failed last; nothing else touches the host |
| DialectEvalOrder.SucceedsIff | outdated/mcp-server/src/dialect.rs:122-149 | a value comes out exactly when every call is known and takes its arguments, and no call made fails |
| DialectValues.ValueIsFilled | outdated/mcp-server/src/dialect.rs:87-149 | a value is the program, as JSON, with each call replaced by what its function returned |
| DialectValues.CallsGivenAndAnswered | outdated/mcp-server/src/dialect.rs:87-149 | each call made, whether or not a value comes out, is given the values of its own arguments under the parameters at their positions, and returns what its function gives for them on the data the calls before have left |
| DialectEvalOrder.ArgumentsByPosition | outdated/mcp-server/src/dialect.rs:132-146 | each argument is bound to the parameter at its position, and nothing else is bound |
| DialectEvalOrder.CallFree | outdated/mcp-server/src/dialect.rs:99-119 | a program without calls yields the structurally identical JSON and leaves the host alone |
| DialectEvalOrder.CaseInsensitive | outdated/mcp-server/src/dialect.rs:127-131 | programs that differ in the case of function names do and give the same |
| DialectReach.ReachableIffLowerWord | outdated/mcp-server/src/dialect.rs:50-63 | from text to call: some program makes the host run a registered function exactly when its name is a word of letters without an upper-case ASCII letter |
| DialectEval.DialectInterpreter.AddFunction | outdated/mcp-server/src/dialect.rs:40-49 | a type's function is registered under the lower-cased name of the type |
| BusRepeater.RepeaterActor.HandleIncomingMessage | outdated/mcp-server/src/actor/repeater.rs:86-133 | a message is remembered, and sent to all subscribers unless it is a log message; closed channels are dropped |
| BusRepeater.RepeaterActor.Handle | outdated/mcp-server/src/actor/repeater.rs:57-83 | the actor's cases, and the dump answers with the history |
| BusBroadcast.ReceivesAllSinceSubscription | outdated/mcp-server/src/actor/repeater.rs:57-133 | a subscriber has received exactly the non-log messages since it subscribed and until it went away, in order, and is dropped by the next broadcast |
| BusBroadcast.LaterIsSuffix | outdated/mcp-server/src/actor/repeater.rs:122-131 | a later subscriber's stream is a suffix of an earlier one's |
| BusBroadcast.OwnMessagesEchoed | outdated/mcp-server/src/daemon.rs:28-64 | a client subscribed before it is read from gets its own messages back, in order |
| BusBroadcast.HistoryIsTail | outdated/mcp-server/src/actor/repeater.rs:86-109 | the history is the last 1024 messages, logs included, under the identifiers of their time |
| BusClient.HandleClient | outdated/mcp-server/src/daemon.rs:17-68 | the repeater is sent the subscription, then, in order, one event for each line that is neither blank nor an unknown command: the bare text of a plain line with its time, a request for the history, or the name given |
| BusClient.EveryClientHearsItself | outdated/mcp-server/src/daemon.rs:28-64 | however clients are interleaved, each open one has had the bare texts of all its plain lines echoed, but for logs, in order |
| BusDispatch.DispatchActor.RequestTurn | outdated/mcp-server/src/actor/dispatch.rs:73-117 | a request's reply channel is filed, then the message is sent, then closed channels are cleaned up |
| BusDispatch.DispatchActor.HandleIncomingMessage | outdated/mcp-server/src/actor/dispatch.rs:142-197 | Marco is answered, a response settles the channel filed under its id, a reference is stored and answered, or answered with an error when the reference actor has stopped, all else is ignored |
| BusDispatch.DispatchActor.MessageTurn | outdated/mcp-server/src/actor/dispatch.rs:96-117 | a message is handled and closed channels are cleaned up |
| BusDispatch.ReferenceActor.StoreReference | outdated/mcp-server/src/actor/reference.rs:89-104 | storing sets the key and succeeds while the actor runs, and is an error afterwards |
| BusDispatch.ReferenceActor.GetReference | outdated/mcp-server/src/actor/reference.rs:107-121 | looking up finds what was stored while the actor runs, and nothing afterwards |
| BusCorrelation.NextKeeps | outdated/mcp-server/src/actor/dispatch.rs:73-197 | every step of every server, the bus and foreign clients keeps the system invariant |
| BusCorrelation.OutcomeIsFirstResponse | outdated/mcp-server/src/actor/dispatch.rs:155-176 | in every run a `send` stands exactly where the first response to its id puts it: waiting, completed with it, or dropped when it does not parse |
| BusCorrelation.NoResponseIsMissed | outdated/mcp-server/src/actor/dispatch.rs:83-91 | a response that arrives while a `send` waits settles it, however early it comes |
| BusCorrelation.SettledByOwnResponseOnly | outdated/mcp-server/src/actor/dispatch.rs:155-176 | only the turn that reads a response with its id completes a `send`, and only once |
| BusCorrelation.OnlyLiveWaitersFiled | outdated/mcp-server/src/actor/dispatch.rs:113-116 | after each turn exactly the live waiters whose request was sent are filed |
| BusCorrelation.ReplicasAgree | outdated/mcp-server/src/actor/dispatch.rs:178-217 | servers that joined together, read equally far and whose reference actors run hold the same references: those of the stores read, in bus order |
| BusAnswers.StoreIsAnswered | outdated/mcp-server/src/actor/dispatch.rs:178-246 | in every run a server with a reference actor that reads a store adds one message, a response under the id of the store, a success exactly when the table is there, which then holds the value |
| BusAnswers.MarcoIsAnswered | outdated/mcp-server/src/actor/dispatch.rs:142-153 | in every run a server that reads a Marco adds one message, a Polo, under a new id |
| BusAnswers.WritesRequestsAndAnswers | outdated/mcp-server/src/actor/dispatch.rs:73-246 | in every run what a server has sent or still holds is what it was asked to send, in order, and one right answer for each Marco and store it read, in order; no response is made up, stores succeed until the reference actor stops, and one `send` waits for each request that expects a reply |
| BusRefinement.RepeaterRefinesBus | outdated/mcp-server/src/actor/repeater.rs:57-133 | every run of servers that send to the repeater and read their mailboxes, among other clients that come, go, log and publish, is a run of the servers on one bus |
| BusRefinement.OutcomeIsFirstRead | outdated/mcp-server/src/actor/dispatch.rs:155-176 | so a `send` stands where the first response to its id in what its server has read from its mailbox puts it |
| BusDispatch.DispatchActor.StopReferences | outdated/mcp-server/src/actor/reference.rs:89-99 | after the reference actor has gone, stores are errors |
| BusQuiescence.TheBusFallsSilent | outdated/mcp-server/src/actor/dispatch.rs:142-197 | without spontaneous sends every run ends within a fixed number of steps, and makes no more messages than there are pairs of a pending Marco or StoreReference and a server yet to read it |
| BusIdle.MessageBus.OnAccept | outdated/mcp-server/src/daemon.rs:291-306 | a client gets the next id and counts as activity |
| BusIdle.MessageBus.OnIdleCheck | outdated/mcp-server/src/daemon.rs:314-340 | finished clients are removed; shut down when none is left and the timeout has passed; live clients count as activity |
| BusIdle.LeavesOnlyWhenIdle | outdated/mcp-server/src/daemon.rs:314-340 | an idle exit means no live client, none accepted for the timeout, and the last one gone for at least the timeout less five seconds |
| BusIdle.LeavesInTime | outdated/mcp-server/src/daemon.rs:279-340 | if all clients are gone by `t` and none comes later, nothing happens after `t` plus the timeout plus five seconds |
| BusIdle.CheckLeavesIff | outdated/mcp-server/src/daemon.rs:314-340 | an idle check leaves exactly when nobody is live and the timeout has passed since the last activity noted |
| BusIdle.WillLeave | outdated/mcp-server/src/daemon.rs:279-340 | from there idle checks alone, which can always come, lead to the exit within that time |
| DiffBuilder.Collector.Foreach | outdated/mcp-server/src/git/git_service.rs:145-241 | the callbacks collect every file with its hunks and trimmed lines; the counters are the numbers of added and removed lines; hunks of a delta without a path go to the file before it, and panic when there is none |
| DiffBuilder.BuildFilesNamed | outdated/mcp-server/src/git/git_service.rs:145-241 | when all deltas have paths there is one file change for each, in order |
| DiffCollected.CollectedAsGiven | outdated/mcp-server/src/git/git_service.rs:145-242 | each delta that names a file is collected as given, with its path, status, hunks, line types, trimmed contents and line numbers, and with the hunks of nameless deltas behind it |
| DiffBuilder.PanicsIffHomeless | outdated/mcp-server/src/git/git_service.rs:180-199 | the callbacks panic exactly when hunks come before any delta with a path |
| DiffBuilder.Collector.OnLine | outdated/mcp-server/src/git/git_service.rs:198-238 | a line goes to the current hunk, typed by its origin, trimmed, and counted |
| ReverseDiff.GenerateOriginalContent | outdated/vscode-extension/src/walkthroughWebview.ts:648-697 | the nested loops rebuild the specified lines |
| ReversePatch.RelatedIsApplied | outdated/mcp-server/src/git/git_service.rs:180-196 | the relation between texts and hunks is the graph of applying the patch by its old positions |
| ReversePatch.ReverseExact | outdated/vscode-extension/src/walkthroughWebview.ts:653-690 | the rebuilt lines have the original's number, and are the original's exactly when every hunk is faithful |
| ReverseTheorems.RebuiltIffFaithful | outdated/vscode-extension/src/walkthroughWebview.ts:648-697 | end to end: the text rebuilt from the collected diff is the original if and only if every hunk is faithful |
| ReverseTheorems.RebuiltWithContext | outdated/mcp-server/src/git/git_service.rs:119 | when each hunk begins with an unchanged line or has none before it, as diffs with context lines do, the rebuilt text is the original if and only if no line the hunks hold of it ends in white space |
| ReverseTheorems.RebuiltWhenAnchored | outdated/vscode-extension/src/walkthroughWebview.ts:653-661 | the same when each hunk has a line of the new text or stands at its top |
| ReverseMarkers.MarkersShift | outdated/mcp-server/src/git/git_service.rs:198-238 | what markers for a missing final newline add to the lines rebuilt, and what they take from the end |
| ReverseMarkers.RebuiltIffUnmarked | outdated/mcp-server/src/git/git_service.rs:198-238 | whether or not the two texts end with a newline, the rebuilt text is the original if and only if the diff has no marker and every hunk is faithful |
| ReverseMarkers.MarkerComesBack | outdated/mcp-server/src/git/git_service.rs:198-208 | a diff with a marker from which the text before is not rebuilt |
| ReverseTheorems.RebuiltLength | outdated/mcp-server/src/git/git_service.rs:223-228 | the number of lines always comes out right, and is that of the new text less additions plus deletions |
| ReverseTheorems.ReverseUndoesApply | outdated/vscode-extension/src/walkthroughWebview.ts:648-697 | when hunks have new lines or are at the top and no line ends in white space, rebuilding inverts applying |
| ReverseTheorems.DeletionWithoutContextIsMisplaced | outdated/vscode-extension/src/walkthroughWebview.ts:656-661 | of the function taken alone: a diff without context, which the collector never asks for, whose deleted line comes back one line too early |
| ReverseTheorems.TrailingSpaceIsLost | outdated/mcp-server/src/git/git_service.rs:210-212 | in a diff with context, a removed line that comes back without the white space at its end |
| SymbolIndex.Output.CollectSymbols | vscode-extension/src/workspaceFileIndex.ts:242-283 | the recursion appends the preorder of the forest up to the limit, each symbol labelled with its ancestors joined by `::` |
| SymbolIndex.FetchWorkspaceSymbols | vscode-extension/src/workspaceFileIndex.ts:168-204 | the batched loop yields exactly the first 5000 symbols of all files in order |
| SymbolIndex.ChildLabel | vscode-extension/src/workspaceFileIndex.ts:276-280 | passing parent names down builds the ancestor path, leaving out nameless outermost ancestors |
| SymbolOrder.AllSymbolsListed | vscode-extension/src/workspaceFileIndex.ts:168-283 | every symbol of every file is listed once, file by file and by position in the tree, with its name, place, path and the label of its ancestors |
| UrlEncoding.Utf8RoundTrip | outdated/vscode-extension/src/symposiumUrl.ts:131-141 | UTF-8 decoding undoes encoding, for every text |
| UrlEncoding.ReadUndoesWrite | outdated/vscode-extension/src/symposiumUrl.ts:48-131 | `URLSearchParams` reads back every list of pairs it writes, and writes no `?` |
| UrlEncoding.EncodedByte | outdated/vscode-extension/src/symposiumUrl.ts:131-141 | letters, digits and `*-._` are written as they are, a space as `+`, and any other byte as `%` and two upper-case digits |
| UrlEncoding.DecodedOrReplaced | outdated/vscode-extension/src/symposiumUrl.ts:48 | bytes that are no UTF-8 are never taken for other text: there is a replacement character |
| UrlEncoding.ReadPieces | outdated/vscode-extension/src/symposiumUrl.ts:48 | a query is read piece by piece, empty pieces passed over |
| UrlEncoding.ReadPairIs | outdated/vscode-extension/src/symposiumUrl.ts:48 | a piece is split at its first `=`, whatever comes after |
| SymposiumUrl.LineSpecRoundTrip | outdated/vscode-extension/src/symposiumUrl.ts:79-163 | every line specification is read back from its format |
| SymposiumUrl.LineSpecIff | outdated/vscode-extension/src/symposiumUrl.ts:79-119 | a text is read as a line specification exactly when it is its numbers, in decimal, with its separators; any other text as none |
| SymposiumUrl.FormatsDisjoint | outdated/vscode-extension/src/symposiumUrl.ts:81-119 | no text matches two of the formats |
| SymposiumUrl.ParseSymposiumUrl | outdated/vscode-extension/src/symposiumUrl.ts:30-68 | the parser computes the specified link or none |
| SymposiumUrl.ParseIs | outdated/vscode-extension/src/symposiumUrl.ts:30-45 | a link has a path up to the first question mark and a query up to the second; without a path it is none |
| SymposiumUrl.QuerySays | outdated/vscode-extension/src/symposiumUrl.ts:47-66 | the first pattern counts, unless it is empty, and the first line, if it is a line specification |
| SymposiumUrl.FormatSymposiumUrl | outdated/vscode-extension/src/symposiumUrl.ts:128-147 | the formatter computes the specified text |
| SymposiumUrl.QueryIs | outdated/vscode-extension/src/symposiumUrl.ts:131-141 | the query as written: the pattern, then the line, each encoded |
| SymposiumUrl.RoundTripIff | outdated/vscode-extension/src/symposiumUrl.ts:30-147 | a link survives being written and read exactly when its path is non-empty and has no `?` and its pattern is not empty |
| SymposiumUrl.ParsedSurvives | outdated/vscode-extension/src/symposiumUrl.ts:30-147 | whatever was read can be written and read again |
| WalkthroughYaml.ParseYamlLines | outdated/mcp-server/src/walkthrough_parser.rs:133-163 | the queue with push-back finds the header, drops the blank line after it and keeps everything else |
| WalkthroughYaml.EveryTextHasHeader | outdated/mcp-server/src/walkthrough_parser.rs:133-163 | of any lines at all, those at the front that read as a key, a colon and a value, up to the first that does not, are the parameters, and the others the text |
| WalkthroughYaml.ParseWritten | outdated/mcp-server/src/walkthrough_parser.rs:133-163 | on lines: parameters written one to a line, a blank line and any lines are read back |
| WalkthroughText.ParseTextWritten | outdated/mcp-server/src/walkthrough_parser.rs:133-163 | on the content: the parameters are read back, and the text but for carriage returns before line feeds and one line feed at its end |
| WalkthroughText.TextKeptIff | outdated/mcp-server/src/walkthrough_parser.rs:133-163 | the text is read back as it was if and only if it has no carriage return before a line feed and does not end in a line feed |
| WalkthroughText.ParseTextRunOn | outdated/mcp-server/src/walkthrough_parser.rs:133-163 | no blank line is needed before a text whose first line does not read as a parameter |
| WalkthroughEvents.Stream.ProcessCodeBlock | outdated/mcp-server/src/walkthrough_parser.rs:166-242 | a block's texts become one piece of HTML; the event that breaks it off is put back; a block that cannot be resolved is an error and puts out nothing |
| WalkthroughBlocks.MermaidBlock | outdated/mcp-server/src/walkthrough_parser.rs:205-210 | a mermaid block becomes the HTML of its content, untouched |
| WalkthroughBlocks.CommentBlock | outdated/mcp-server/src/walkthrough_parser.rs:211-218 | a comment block becomes the HTML of a comment at its `location`, with its `icon` if it has one, and its text |
| WalkthroughBlocks.GitDiffBlock | outdated/mcp-server/src/walkthrough_parser.rs:219-227 | a diff block becomes the HTML of a diff of its `range`, with the two flags in either spelling |
| WalkthroughBlocks.ActionBlock | outdated/mcp-server/src/walkthrough_parser.rs:228-234 | an action block becomes the HTML of a button with its `button` text, or `Action`, and its text as the message |
| WalkthroughBlocks.OtherBlockStays | outdated/mcp-server/src/walkthrough_parser.rs:122-129 | a code block in any other language stays as it is |
| WalkthroughEvents.Stream.ProcessEvents | outdated/mcp-server/src/walkthrough_parser.rs:97-119 | the queue loop ends and computes the specified rewriting, or the error of the first block that cannot be resolved |
| WalkthroughEvents.RewriteIsOutputs | outdated/mcp-server/src/walkthrough_parser.rs:97-242 | one event for each segment: events outside special blocks once and in order, one piece of HTML for each special block; or an error |
| WalkthroughEvents.OutputsEach | outdated/mcp-server/src/walkthrough_parser.rs:97-242 | there is an outcome exactly when every block resolves, and then event `k` comes from segment `k` |
| WalkthroughEvents.EveryStreamIsSegmented | outdated/mcp-server/src/walkthrough_parser.rs:97-119 | every stream of events is such a document |
| WalkthroughEvents.NoSpecialBlockLeft | outdated/mcp-server/src/walkthrough_parser.rs:97-119 | no special block is left in the output |

## Left out

- Chat: reuse of a tab id, agent sessions and their clashes, notifications waiting for a session, the approval dialogs, the spinner, and `get-selected-tab`/`create-tab`, which are not indexed; JSON and the mynah-ui widgets (a tab is its list of cards; `updateLastChatAnswer` is taken to act on the current message id; ids drawn at random are taken to be new).
- Chat: a message going up is handled in one step, in the order of the channel; the wait at the start of the handler of `new-tab` shows as the message being handled later.
- Chat: what is posted to a page that is still loading is taken to be held for it and delivered, in order, once its script listens.
- Chat: the page lifecycle is the steps `Create`, `Load` and `Destroy`; a dying page loses what is going down and any part of what is going up.
- Dialect: the Unicode properties of `char` are a parameter, of which only the ASCII members and disjointness are used; an integer literal of 2^64 or more is the outcome `Panic`, as the code unwraps; the `Eof` token kind and the `ExpectedKey` error, which the code never produces, are not there.
- DialectEval.DialectInterpreter.EvaluateAst: host functions are opaque and total, see only the host's data, and do not change the function table or call back into the interpreter, because what they run is code outside the interpreter; JSON numbers are integers.
- Bus: sockets, serialization, bounded channels that make a sender wait, actors whose channels are closed, and the 100 ms pause and broadcast on a shutdown signal; the text of an error reply when the reference actor stops in the middle of a store; ids are unique because they name their maker and number.
- Bus: a turn of an actor is one step; how messages are written on a line and read from one is a parameter, of which it is used that they are read back and that the repeater takes only messages the servers ignore for logs.
- BusIdle.LeavesOnlyWhenIdle: the idle time is at least, not more than, the timeout less five seconds, because a client may end at the very moment of a check; checks are taken to run when they are due.
- Diffs: how libgit2 finds hunks (that a hunk begins with an unchanged line unless there is none before it is what the option for context lines asks for, and the text of a marker is libgit2's); binary files, hunk headers and line numbers in the reconstruction, and choosing the trees to compare.
- Symbols: the list of files, the filter by extension, and change notifications.
- Links: numbers are naturals without the rounding of JavaScript numbers above 2^53, and texts are sequences of Unicode scalar values, so without lone surrogates.
- Walkthroughs: Markdown parsing and HTML, and the resolution of elements (Dialect, git), which is a function from element to HTML that may fail; formatting of Dialect expressions.
- The Swift application, set-up, continuous integration, the other `symposium-*` crates and the crate-source cache: thin wrappers around the parts above or around other programs.
