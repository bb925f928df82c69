# OpenAstro Guider tooling: verified model

A Dafny model of the Python tooling that ships with OpenAstro Guider, and proofs about it. Three scripts are covered.

**The JSON-RPC bridge** (`scripts/phd2_web_ui_server.py`). Many HTTP threads share one line-based connection to the
guider. Calls are matched to replies by id through a table of one-slot queues; a connector thread reconnects, a reader
thread per connection delivers, an owner starts and stops. `BridgeMachine` is a transition system with a program counter
per thread. Every lock-protected block and queue operation is a step, and so is every read or write of a shared
variable, together with the socket operation on its value where there is one (55-57, 58-60, 134): setting up a
connection (lines 68-72) and closing one (48-60, 111-112) are *not* atomic, as they are not in the script. The server is
the environment and may send any line at any time. Ids are compared as Python compares dictionary keys, so `1`, `1.0`
and `true` are one key (section 5 of the JSON-RPC 2.0 Specification asks for the request's own value) and an unhashable
id ends the reader. What a theorem assumes of the server is a parameter of its runs: `Causal` (it answers only what it
was sent), `OneReply` (at most once per id).

- `BridgeTable`, `BridgeDelivery`, `BridgeBlocking`, `BridgeEndings`: which call a reply reaches, over every interleaving,
  when a reader blocks, how calls and readers end.
- `BridgeConnection`, `BridgeWedge`: `_running`, `_sock` and `_file`; `BridgeOwner`: `start` and `stop`.
- `BridgeProgress`: what the threads can bring about from any state of a given kind, for the harder halves of the
  equivalences; `BridgeTraces`: runs that reach the bad states the other modules characterise.
- `RpcClient`, `BridgeRefinement`: the sequential client of `scripts/phd2_rpc_smoke.py`, and that the bridge refines it.
- `Bridge`: `call`, `start` and `stop` in imperative form, under interference by all other threads; their steps are steps
  of the machine, so every theorem about runs applies.
- `EventFanout`: event queues with concurrent broadcasters; `EventLog`: the same with each broadcast taken as one step,
  which is what `WholeBroadcasts` proves of the uninterrupted runs of `EventFanout`, and `EventHub` of the queue objects.

Four behaviours of the bridge that its documentation does not mention come out of the proofs, each with a run that shows it
and with its exact condition:

1. A reconnect in the middle of a close can leave the bridge "running" without a connection (`WedgeIsReachable`). Between
   the owner's calls and with nobody midway, "running" and the connection are sure to agree until the next `start` exactly
   if they do now and the connector is not going to connect (`AgreesUntilStartIff`). The bridge will never connect again
   before a `stop` exactly if it is "running" and every reader left is dead, has no file to read from, or is blocked
   (`NeverConnectsIff`); it refuses every new call until then exactly if there is no file either (`RefusesNewCallsIff`).
2. A reply repeated around a timeout can block the reader for good (`BlockIsReachable`). Whatever the server sends, that is
   exactly if the queue is full and its call is past the get (`BlockedForeverIff`).
3. `stop` does not imply disconnected, and a `start` can be lost (`StopMayNotDisconnect`, `LostStartIsReachable`): exactly
   if the connector is on its way to a connection (`StopDisconnectsIff`), or found leaving (`StartIsLostIff`).
4. An event can be dropped although its queue has room for it (`DropOnEmptyQueueIsReachable`). A broadcaster gives its event
   up exactly if, having found the queue full, it finds it empty when it comes to make room, or full again when it has
   (`GivenUpIff`).

One promise of the changelog compiler depends on its arguments, that what it writes reads back uniquely. A header is the
package, `" ("`, the version, and nothing marks which `" ("` that is. The text determines the changelog, for any reader,
exactly if the package's name contains no `" ("` and the versions do not all begin alike up to one (`TextDeterminesIff`); for
the arguments of the script that means no `" ("` in the package's name and, unless there is a released version, none in the
one being built (`CompiledTextDeterminesIff`). A reader who knows the package has no such trouble
(`PackageAndTextDetermine`). `ReadBack`, the reader given here, takes the first `" ("` and so is right exactly if the
package's name has none (`WrittenReadsBackIff`).

**The changelog compiler** (`scripts/changelog_to_deb.py`). `Text` holds the string operations, `ChangelogParser`,
`ChangelogLines` and `ChangelogContent` the parser, `BulletWrapper` the line breaker, `Stanzas` the selection,
`DebianChangelog` the writer, `DebianReader` a reader for what it writes, `DebianText` what the text determines,
`ChangelogToDeb` the whole program. `strip_markdown` is a parameter; dates are rendered by a parameter.

**The simulated camera** (`scripts/fake_alpaca_camera.py`). `FakeCamera` models the pulse accumulator and the frame cache;
rendering is a parameter, the clock's readings are inputs.

`dafny verify dfyconfig.toml` checks everything.

## Model

| member | source | states |
|---|---|---|
| BridgeTable.IdsNeverReused | scripts/phd2_web_ui_server.py:114-124 | over the bridge's whole life, reconnects included, no two calls share an id and every later id is larger than every earlier one |
| BridgeTable.PendingTableIsExact | scripts/phd2_web_ui_server.py:129-141 | in every reachable state the table's keys are exactly the ids of the calls between registration and their finally block, each leading to its own call's queue; with all calls over the table is empty |
| BridgeTable.RepliesReachTheirOwnCall | scripts/phd2_web_ui_server.py:99-149 | a call that returns or raises on a reply got an object the server sent whose id is this call's integer (or the equal float, or `true` for call 1), and no other call's (so lines 143-144 are never reached) |
| BridgeTable.RepliesGoById | scripts/phd2_web_ui_server.py:99-104 | exactly the objects with an id are looked up, events included; an integer, or the equal float, goes to the call the table has under it, `true` to that of 1, any other id to nobody, an unhashable one ends the reader |
| BridgeTable.LateRepliesReachNobody | scripts/phd2_web_ui_server.py:99-141 | once a call has ended its outcome stands, and in every later state no other call has been answered by, or holds, a message with its id |
| BridgeTable.LateRepliesAreDiscarded | scripts/phd2_web_ui_server.py:99-104 | a reader that looks up a reply to an ended call throws it away and reads on |
| BridgeEndings.CallEndsIff | scripts/phd2_web_ui_server.py:120-141 | a call is refused, answered with a message, timed out or aborted if and only if it found the bridge not running or without a file, took that message from its queue, found the queue empty at the timeout, or its write or get raised |
| BridgeEndings.SentIffWritten | scripts/phd2_web_ui_server.py:133-135 | the server has been sent exactly the ids that calls have written |
| BridgeEndings.ReaderIsGoneIff | scripts/phd2_web_ui_server.py:87-112 | a reader is gone if and only if it found the bridge not running or without a file, or has closed the connection |
| BridgeDelivery.RepliesAreNotLost | scripts/phd2_web_ui_server.py:99-141 | if the server answers only ids it was sent, a looked-up reply goes to the call it belongs to, and is thrown away if and only if that call has ended |
| BridgeDelivery.DeliveryNeverBlocks | scripts/phd2_web_ui_server.py:101-141 | if the server sends at most one reply per id over all connections, a live reader is never blocked at a put |
| BridgeDelivery.OneReplyIff | scripts/phd2_web_ui_server.py:89-104 | what that assumes of the server, said of the stream: exactly the runs in which no two lines answer the same request |
| BridgeBlocking.BlockedForeverIff | scripts/phd2_web_ui_server.py:101-141 | whatever the server sends, a reader with a reply to put is blocked in every continuation if and only if the queue is full and its call is past the get |
| BridgeTraces.BlockIsReachable | scripts/phd2_web_ui_server.py:101-141 | a reply that comes twice around a timeout does block the reader for good, while the bridge counts as running: it is stranded with a file |
| BridgeConnection.NotRunningMeansDown | scripts/phd2_web_ui_server.py:46-112 | in every reachable state with nobody midway, whatever overlapped: not "running" means neither socket nor file, and "running" with a file means the latest reader is alive |
| BridgeConnection.LatestConnection | scripts/phd2_web_ui_server.py:62-74 | in every reachable state, once the connector has set it, the socket or file that is set belongs to the connection opened last |
| BridgeConnection.UninterruptedRunsAgree | scripts/phd2_web_ui_server.py:46-112 | with closing and setting up taken as single steps "running" holds exactly when socket and file are both set, in every reachable state, and then the latest reader is alive |
| BridgeTraces.UninterruptedRunConnects | scripts/phd2_web_ui_server.py:39-74 | and there are such runs that connect |
| BridgeWedge.AgreesUntilStartIff | scripts/phd2_web_ui_server.py:46-112 | at the script's own granularity, between the owner's calls with nobody midway: "running" and the connection agree in every such state until the next `start` if and only if they do now and the connector is not going to connect |
| BridgeWedge.DisagreementThreatens | scripts/phd2_web_ui_server.py:46-112 | once `start` may be called again, some run from any such state ends "running" without a file |
| BridgeWedge.NeverConnectsIff | scripts/phd2_web_ui_server.py:62-112 | no connection is ever opened before the next `stop` if and only if the bridge is stranded: "running", with every reader dead, without a file to read from, or blocked at a full queue nobody reads |
| BridgeWedge.RefusesNewCallsIff | scripts/phd2_web_ui_server.py:76-122 | every new call is refused until the next `stop` if and only if the bridge is stranded without a file |
| BridgeTraces.WedgeIsReachable | scripts/phd2_web_ui_server.py:62-112 | a reconnect between lines 111 and 112 leads there |
| BridgeOwner.AtMostOneConnectionAfterStop | scripts/phd2_web_ui_server.py:39-85 | after `stop` with no later `start`: at most one connector thread is left, none is added, and at most one connection is opened, none unless the connector had already seen `_desired_running` set |
| BridgeOwner.StopDisconnectsIff | scripts/phd2_web_ui_server.py:46-85 | `stop` leaves the bridge disconnected in every continuation without `start` if and only if the connector was not on its way to a connection when `_desired_running` was cleared |
| BridgeTraces.StopMayNotDisconnect | scripts/phd2_web_ui_server.py:46-85 | a stopped bridge can end up connected, with a live reader |
| BridgeOwner.StartIsLostIff | scripts/phd2_web_ui_server.py:39-44 | after `start` some connector is at work if and only if the previous one was not found past its loop but still alive |
| BridgeOwner.LostStartNeverConnects | scripts/phd2_web_ui_server.py:39-85 | with no connector at work and no further `start`, no connection is ever opened |
| BridgeOwner.ConnectorStaysAtWork | scripts/phd2_web_ui_server.py:76-85 | until the next `stop` a connector at work stays at work, however often connecting fails |
| BridgeOwner.ConnectorRestsWhileRunning | scripts/phd2_web_ui_server.py:76-80 | as long as the bridge is running a connector in its loop does not go for the lock |
| BridgeTraces.LostStartIsReachable | scripts/phd2_web_ui_server.py:39-50 | a `start` right after `stop` can be lost that way |
| RpcClient.Client.Request | scripts/phd2_rpc_smoke.py:33-48 | takes the next id and reads lines until one answers it, a malformed one, the end or the deadline comes, as `Scan` says; what it returns is the line just read, an object with that very id |
| RpcClient.Client.Call | scripts/phd2_rpc_smoke.py:27-48 | gives the server's result, or its error if there is one, exactly if an answer comes before the deadline, the end of the stream and every malformed line |
| RpcClient.ScanFindsFirst | scripts/phd2_rpc_smoke.py:41-48 | a request finds exactly the first line that answers it, unless time, the stream or a malformed line comes first |
| BridgeRefinement.BridgeRefinesClient | scripts/phd2_web_ui_server.py:87-149 | one caller, no timeouts or disconnects, a server that answers only what it was sent: at any moment of any run the finished calls used the ids 1, 2, 3, ... and got the first line answering each; the sequential client on the same lines gets the same messages if and only if no malformed line precedes the last of them |
| BridgeRefinement.ClientGetsFirsts | scripts/phd2_rpc_smoke.py:33-48 | on a stream that answers in order the client gets the first answer to each request |
| BridgeTraces.JustConnectedIsReachable | scripts/phd2_web_ui_server.py:39-90 | the state the refinement starts from is where a connecting bridge gets to |
| BridgeTraces.CallIsAnswered | scripts/phd2_web_ui_server.py:87-149 | and from there a run of the kind the refinement speaks of leads to an answered call |
| Bridge.PhdRpcBridge.Call | scripts/phd2_web_ui_server.py:120-149 | under any interference: a fresh id, out of the table when it is over; what is returned or raised is the result, or the error if there is one, of an object the server sent with this very id; every other ending is a refusal, a timeout, a negative timeout or a failed write |
| Bridge.PhdRpcBridge.NextRequestId | scripts/phd2_web_ui_server.py:114-118 | hands out the counter and advances it, as the machine's step does |
| Bridge.PhdRpcBridge.Register | scripts/phd2_web_ui_server.py:129-131 | puts the call's queue into the table under its id, before anything is sent |
| Bridge.PhdRpcBridge.Write | scripts/phd2_web_ui_server.py:133-135 | sends the request or fails, without a file always; either way the call goes on to its finally block |
| Bridge.PhdRpcBridge.Pop | scripts/phd2_web_ui_server.py:139-141 | takes exactly this call's id out of the table and settles how it ended |
| Bridge.PhdRpcBridge.Get | scripts/phd2_web_ui_server.py:136-138 | takes the reply that is there, or times out on the empty queue |
| Bridge.PhdRpcBridge.Start | scripts/phd2_web_ui_server.py:39-44 | under any interference a connector is at work afterwards, unless the last one was leaving |
| Bridge.PhdRpcBridge.Stop | scripts/phd2_web_ui_server.py:46-50 | under any interference the bridge is disconnected afterwards, unless the connector was on its way to a connection |
| EventFanout.QueuesKeepOrder | scripts/phd2_web_ui_server.py:151-174 | over every interleaving of broadcasters and consumers: at most 100 events, first in first out, no event enters a queue twice, each broadcaster's events enter in its order |
| EventFanout.SubscribedIff | scripts/phd2_web_ui_server.py:151-160 | a queue is subscribed from its creation until it is unsubscribed, whatever is subscribed besides |
| EventFanout.MeantForIff | scripts/phd2_web_ui_server.py:162-164 | an event is meant for exactly the queues subscribed when its broadcast began |
| EventFanout.GivenUpIff | scripts/phd2_web_ui_server.py:162-174 | a broadcaster that is through with a queue has not put its event there if and only if at some moment, having found it full, it found it empty at the get or full again at the second put |
| EventFanout.LostIff | scripts/phd2_web_ui_server.py:162-174 | an event is lost to a subscriber, neither in its queue nor read, if and only if it was given up that way or pushed out by some broadcaster's get |
| EventFanout.LostOnlyWhenFull | scripts/phd2_web_ui_server.py:162-174 | so only on account of a put that found the queue full: its own, or that of the event that pushed it out |
| EventFanout.DropOnEmptyQueueIsReachable | scripts/phd2_web_ui_server.py:167-174 | an event can be dropped although the subscriber has read everything |
| EventHub.EventQueue.PutDroppingOldest | scripts/phd2_web_ui_server.py:167-174 | with nobody in between, pushing out the oldest event of a full queue is keeping the last 100 |
| EventHub.Hub.BroadcastEvent | scripts/phd2_web_ui_server.py:162-174 | with nobody in between every subscriber's queue becomes the last 100 of its events and the new one |
| EventHub.Hub.SubscribeEvents | scripts/phd2_web_ui_server.py:151-155 | adds a new empty queue |
| EventHub.Hub.UnsubscribeEvents | scripts/phd2_web_ui_server.py:157-160 | takes out exactly that queue |
| EventLog.QueueIsLastUnread | scripts/phd2_web_ui_server.py:151-174 | after any sequence of broadcasts and reads the queue is the last 100 of the events not yet passed |
| EventLog.QueueIsEndOfLog | scripts/phd2_web_ui_server.py:151-174 | so it is a contiguous end of the log since the subscription, empty only if the newest event has been read |
| WholeBroadcasts.WholeRunsKeepLast | scripts/phd2_web_ui_server.py:151-174 | every queue of the concurrent system holds just that, in every run in which nobody takes a step in the middle of a broadcast |
| WholeBroadcasts.FirstEventArrives | scripts/phd2_web_ui_server.py:151-174 | and there are such runs that deliver |
| EventHub.Subscription | scripts/phd2_web_ui_server.py:151-174 | and so does the queue object of a subscriber |
| ChangelogParser.ParseChangelog | scripts/changelog_to_deb.py:53-85 | the loop computes the sections `Parse` defines |
| ChangelogParser.ParseIsCompositional | scripts/changelog_to_deb.py:53-85 | cutting before a heading, parsing the parts and joining is parsing the whole |
| ChangelogParser.CollapsingIsInvisible | scripts/changelog_to_deb.py:28-32 | rewriting any headings to their summary form and inserting details lines and blank lines anywhere leaves the result unchanged |
| ChangelogParser.SummaryMatches | scripts/changelog_to_deb.py:28-32 | the summary form of a heading is recognised with the same label and date |
| ChangelogLines.HeadingIff | scripts/changelog_to_deb.py:28-32 | a line is a heading if and only if it is `## [`, a label, `]`, perhaps a date, and white space, or the same between the summary tags; it gives the label and the date written in it |
| ChangelogLines.CategoryIff | scripts/changelog_to_deb.py:33 | a category line is `### `, the category, and white space to the end |
| ChangelogLines.SkippedIff | scripts/changelog_to_deb.py:35-79 | the category left out is "commit references" in any letter case, whatever white space is around it |
| ChangelogLines.DetailsIff | scripts/changelog_to_deb.py:71-73 | the lines around a collapsed section begin, behind white space, with one of the two tags |
| ChangelogLines.BulletLine | scripts/changelog_to_deb.py:80-81 | a bullet's text is what is behind the dash, without white space at the ends |
| ChangelogLines.ContinuationLine | scripts/changelog_to_deb.py:82-84 | a continuation's text is what is behind white space and dashes |
| ChangelogLines.SectionWrittenOut | scripts/changelog_to_deb.py:53-85 | heading, category, bullet and continuation written out, for all labels, dates, categories and texts: one section with one bullet of that category, its text continued behind a blank; none under "Commit References" |
| ChangelogContent.FileIsItsSections | scripts/changelog_to_deb.py:55-85 | a whole file is parsed into one section per heading and the lines up to the next, in file order, each as `SectionIsItsLines` says; lines before the first heading say nothing |
| ChangelogContent.SectionIsItsLines | scripts/changelog_to_deb.py:58-84 | a section's bullets, said line by line: a bullet line opens one under the nearest category above, every other content line continues the nearest bullet above |
| ChangelogContent.SectionTextsConserved | scripts/changelog_to_deb.py:58-84 | the bullet texts joined by spaces are the texts of the section's content lines in file order, from the first bullet on |
| ChangelogContent.CommitReferencesIgnored | scripts/changelog_to_deb.py:35-79 | under "Commit References", in any letter case, any line but a heading or a category can be removed without effect |
| BulletWrapper.WrapBullet | scripts/changelog_to_deb.py:88-101 | the lines of the greedy split; their words, in order, are those of the category with a colon, if there is one, and those of the text; `  *` in front of the first, three blanks in front of the others, none over the width but with a single word |
| BulletWrapper.GreedyIsLegal | scripts/changelog_to_deb.py:88-101 | no word is lost or moved, every line fits or is one word, every break is forced |
| BulletWrapper.GreedyIsOptimal | scripts/changelog_to_deb.py:88-101 | for every word list and width no legal split takes fewer lines |
| BulletWrapper.LinesAreRight | scripts/changelog_to_deb.py:93-101 | the lines as written: right prefixes, the words back without them, within the width unless one word, none bare but an empty bullet's |
| Stanzas.VersionIff | scripts/changelog_to_deb.py:34 | a version is three numbers with dots between them and a suffix of letters, digits, `.`, `~`, `+` and `-` |
| Stanzas.DayIff | scripts/changelog_to_deb.py:114-116 | the dates that exist, by year, month and day |
| Stanzas.UnreleasedIff | scripts/changelog_to_deb.py:130 | "unreleased" in any letter case |
| Stanzas.FindReleases | scripts/changelog_to_deb.py:129 | the dated, version-shaped sections |
| Stanzas.AddReleases | scripts/changelog_to_deb.py:114-147 | adds their stanzas behind the first, unless one of the dates does not exist |
| Stanzas.SelectStanzas | scripts/changelog_to_deb.py:128-150 | gives the expected stanzas and the warning, fails exactly on an impossible date of a released section, and never finds nothing to write |
| Stanzas.SelectionIsComplete | scripts/changelog_to_deb.py:128-147 | one stanza per dated, version-shaped section, with its label, its bullets, its date and the distribution stable, preceded by exactly one UNRELEASED stanza if and only if none of them is the version being built |
| Stanzas.PositionsAreComplete | scripts/changelog_to_deb.py:129 | these are all such sections, in file order |
| Stanzas.BuiltVersionAppears | scripts/changelog_to_deb.py:128-150 | the version being built always has a stanza, so the "no versioned sections" exit is unreachable |
| Stanzas.UnreleasedIsFirst | scripts/changelog_to_deb.py:130 | the first "Unreleased" section counts |
| DebianChangelog.TextFile.EmitStanza | scripts/changelog_to_deb.py:104-111 | writes the stanza behind what is there, character by character as `StanzaText` spells it out, bullets at width 78 |
| DebianChangelog.TextFile.WriteStanzas | scripts/changelog_to_deb.py:152-156 | writes all stanzas, a blank line between two and none at the end |
| DebianReader.WrittenReadsBackIff | scripts/changelog_to_deb.py:104-156 | the reader `ReadBack` recovers, from the text alone, every stanza's version, distribution, trailer and every bullet's words if and only if the package's name does not contain " (" |
| DebianText.TextDeterminesIff | scripts/changelog_to_deb.py:104-156 | every changelog with the same text, of whatever package, says the same if and only if the package's name contains no " (" and the versions do not all begin alike up to one |
| DebianText.PackageAndTextDetermine | scripts/changelog_to_deb.py:104-156 | two changelogs of the same package with the same text say the same, whatever its name |
| ChangelogToDeb.CompiledTextDeterminesIff | scripts/changelog_to_deb.py:119-156 | for the stanzas the script writes: if and only if the package's name contains no " (" and there is a released version or the one being built contains none |
| ChangelogToDeb.Compile | scripts/changelog_to_deb.py:119-156 | from the lines of CHANGELOG.md to the text of the expected stanzas; `ReadBack` finds them in it, and it determines them, in exactly these cases; fails exactly on an impossible date |
| FakeCamera.Camera.StarField | scripts/fake_alpaca_camera.py:60-90 | cached or not, the frame is what rendering now gives, at the sum of all pulses |
| FakeCamera.Camera.ApplyPulse | scripts/fake_alpaca_camera.py:146-157 | the offset stays the signed per-axis sum of all pulses; a pulse moves the field 15 arc seconds to the second of time, north and west counting negative |
| FakeCamera.OrderIsIrrelevant | scripts/fake_alpaca_camera.py:146-157 | the offset is the same whatever the order of the pulses |
| FakeCamera.OppositePulsesCancel | scripts/fake_alpaca_camera.py:146-157 | a pulse and the same pulse the other way leave the offset as it was |
| FakeCamera.Serve | scripts/fake_alpaca_camera.py:81-90 | after any sequence of pulses and image reads the images are those of a camera without a cache |

## Left out

- `_connect_once`, `_connector_loop` and `_reader_loop` are steps of the transition system on values, not methods of the class; their order of steps and their sharing of fields are in the system.
- Publishing events is no step of the bridge's machine: it never blocks and touches none of its variables; `EventFanout` lets any thread broadcast at any time.
- Setting up a connection: once the socket is open, `makefile` and starting the reader thread always succeed; closing never raises.
- Writing to the socket: one request line is one send, a failed write sends nothing; JSON text is a datatype of messages.
- Timeouts and deadlines are choices that may be made at any time (in `RpcClient`, a number of lines), not clock readings.
- BridgeTable.RepliesReachTheirOwnCall: "the call's id" is Python's equality, so a reply with the id `true` answers call 1.
- DebianReader.WrittenReadsBackIff: the package, the maintainer, the versions and the rendered dates are taken to be single lines, and distributions to have no closing parenthesis, like the two the script writes.
- DebianText.TextDeterminesIff, DebianText.PackageAndTextDetermine and ChangelogToDeb.CompiledTextDeterminesIff: speak of changelogs of that kind.
- `\d` in the version and date patterns stands for ASCII digits; lower-casing is that of ASCII letters, which decides the two comparisons made.
- `strip_markdown`'s substitutions, the rendering of dates, the clock and the pixels of a frame are parameters.
- FakeCamera.Camera.StarField: offsets are reals, so pulses that cancel do so exactly; the script's floats may leave a remainder, and then it renders afresh.
- HTTP handlers, file serving, device discovery, argument parsing and the smoke test's fixed list of checks.
