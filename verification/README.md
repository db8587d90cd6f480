# Verification of irc-eew

A Dafny model of the parts of irc-eew that carry an earthquake telegram from the wire to its
readers, with proofs about every input, every run and every interleaving:

- the WNI frame parser, the simulator's printer that it undoes, and the client loop that drives it;
- the IRC send path: the coalescing and evicting queue, as an object and as a monitor shared by
  goroutines, the channel dispatcher, the ready channel, the reconnect token and the backoff;
- the telegram decoder, with the agency's line layout as its inverse;
- archive names and paths as the daemon writes them and as the viewer reads and orders them, the
  viewer's drill-down, and what it reaches of an archive built by any run of filings;
- the message text, that it can be read back, and the removal of its link for IRC.

`dafny verify dfyconfig.toml` checks the whole project.

## How it is built

Code that changes state is a class with a method per operation (`FrameParser`, `Client`, `Session`,
`Queue`, `Dispatcher`, `Connection`, `Telegram`); each method is proved equal to a function on values,
and the theorems are about those functions. The frame parser is specified by an automaton that reads
one byte at a time (`FrameAutomaton`). A queue carries a ghost history of its whole run
(`Queues.History`) and a connection those of its calls and of its signals, so the theorems about runs
hold of every such object. What these functions say is stated a second time without them, in terms of
characters, positions and numbers: `TextFacts` and `ArchiveFacts` for the primitives, `Regexps` and
`LineReadings` for the decoder, `MessageTexts` and `NoticeTexts` for the messages. Goroutines are interleaved atomic steps: critical sections under the mutex
in `QueueMonitor`, handler, Run and writer steps in `Connections`. `ArchiveRuns` builds the archive
filing by filing and looks at it through the viewer.

A `string` stands for a byte string, one `char` for one byte; only in the message text, which is never
taken apart by bytes, does a char of the Japanese literals stand for a rune. Paths are lists of what
stands between the slashes, before or after cleaning. Latitude, longitude and magnitude are integers in
tenths; durations are in nanoseconds. The environment decides what is read, how far a write gets, which
files can be read, what a charset can encode, when connections come and go and what the clock says;
these are parameters. The digest of a Data block is an arbitrary function of its body, and the generated
lookup tables are arbitrary maps; the message theorems ask that epicenter and intensity names are free
of `<`, `|`, `>`, for reading back that no epicenter name holds the text `)深さ` that follows it in
a message, and for telling cancellations that no intensity name ends in ` 取り消されました`. The program's
tables meet these conditions; `ParenthesesInUnsetOnly` is about the one name
with a `)`.

## Where code and documentation differ

- internal/irc/queue.go:38-41 says that final and cancelling reports survive longest. They do among
  the entries pending, but an arriving notice is never refused: `DisplacedExactly` gives the exact
  condition under which its arrival costs a more important one, by eviction or by coalescing, and
  `CancellationEvicted` and `CancellationReplaced` are such runs. `ImportantNoticesSurvive` gives a bound
  under which nothing important is evicted, and `PressureIsTight` shows that it cannot be improved.
- internal/wni/protocol.go:66-67 describes Feed as returning the completed frames, and its only error is a
  failed acknowledgement. A negative Content-Length, however, passes Atoi at line 106, and the slice at
  line 141 panics. `FeedPanicsExactly`, `CrashesExactly` and `ClientPanicsExactly` say when, for one call,
  for a stream and for the client's loop; `NegativeLengthCrashes` gives such inputs, `MinusOneCrashes`
  a short one.
- README.ja.md:11 says that limited-notice channels are told of the first and the final report. They are
  selected for them, but the queue may hold a first report until a routine one takes its place, which
  goes to the all-notice channels alone. `LimitedHearExactly` says for every run of which earthquakes a
  limited channel hears; `RoutineOvertakes` gives runs in which it hears nothing of one.
- internal/irc/connection.go:72 says that the ready channel is closed once joined and replaced on every
  disconnect. A drop before registration replaces it under a waiting writer; `StrandedExactly` says when.
  `StaleTokenExactly` says when a reconnect token is left over for the next connection.
- internal/eewview/list.go:16-18 has an absent parameter fall through to the list of its level, which it
  does only where no directory is named after zero. The daemon can make such a directory, because the ND
  pattern takes any fourteen digits: `StrayFiling` is a run after which the page of a whole year lists no
  months. `FiledIsReachable` says exactly which filed telegrams the links reach.

## Model

| member | source | states |
|---|---|---|
| `FrameParsers.FrameParser.Feed` | internal/wni/protocol.go:68-154 | One call returns exactly the frames, the acknowledgement and the state of the byte automaton run over everything held and new, up to the first signal; a failed acknowledgement still hands over the frames finished before it, and success leaves the parser quiescent |
| `FrameParsers.FrameParser.TakeLine` | internal/wni/protocol.go:78-128 | A header line either is the ping (acknowledge, then wipe headers and buffer; or, when the write fails, change nothing) or continues as the automaton does after that line |
| `FrameParsers.FrameParser.CloseBlock` | internal/wni/protocol.go:101-122 | The blank line yields the frame of its X-WNI-ID or opens a body, and the headers are reset unless a body was opened |
| `FrameParsers.FrameParser.TakeBody` | internal/wni/protocol.go:138-150 | Exactly the first `size` buffered bytes become the body; the rest starts the next block |
| `FrameParsers.FrameParser.SendAck` | internal/wni/protocol.go:156-168 | A successful write sends the whole acknowledgement text, a failed one some prefix of it, and the error is returned |
| `FrameParsers.FrameParser.constructor` | internal/wni/protocol.go:62-64 | A new parser is in the automaton's initial state |
| `FrameParsers.QuiescentBacklog` | internal/wni/protocol.go:69-77 | What a quiescent parser holds never has to be read again: feeding is running the automaton on the new bytes alone |
| `FrameParsers.FeedPanicsExactly` | internal/wni/protocol.go:68-154 | Whatever a quiescent parser holds, a call panics if and only if a byte of the new data ends a Data block with a negative Content-Length in the state that the quiet run before it leads to |
| `FrameAutomaton.RunQuiescent` | internal/wni/protocol.go:72-77 | After a run without a signal no newline waits in header mode and the body is incomplete in body mode |
| `FrameAutomaton.SignalsExactly` | internal/wni/protocol.go:81-109 | A byte asks for an acknowledgement exactly when it ends a header line containing the ping text; it makes the slice at line 141 panic exactly when it ends a Data block whose Content-Length is a negative number |
| `FrameAutomaton.StopsExactly` | internal/wni/protocol.go:72-128 | A run over any input stops with a given signal if and only if some byte gives that signal in the state that the quiet run over the bytes before it leads to |
| `FrameAutomaton.CrashesExactly` | internal/wni/protocol.go:94-150 | A stream of any length with its pings acknowledged crashes if and only if it holds the end of a Data block with a negative Content-Length |
| `FrameAutomaton.RunAppend` | internal/wni/protocol.go:39-46 | A run may be interrupted at any byte and resumed without changing frames, state or stopping point |
| `FrameAutomaton.RunLine` | internal/wni/protocol.go:73-128 | A header line is acted upon as a whole, whatever precedes its newline in the buffer |
| `FrameAutomaton.RunBody` | internal/wni/protocol.go:138-150 | A body of any bytes, newlines, header-like text and pings included, is taken by count alone, also when it is empty |
| `FrameAutomaton.ChunksAreAStream` | internal/wni/protocol.go:68-154 | For every way of cutting the input, successive calls see exactly the stream of kept bytes: each chunk up to its first header-mode ping |
| `FrameAutomaton.StreamOfPrefix` | internal/wni/protocol.go:39-46 | More bytes only add frames and acknowledgements to those of a shorter stream |
| `FrameAutomaton.AlignedChunks` | internal/wni/protocol.go:85-91 | If every ping ends its chunk nothing is dropped: the calls together equal the automaton on the whole stream |
| `FrameAutomaton.ChunkingIndependence` | internal/wni/protocol.go:42-46 | Two ways of cutting one stream in which pings end their chunks give the same frames, acknowledgements and final state |
| `FrameAutomaton.OnlyLastByteAcks` | internal/wni/protocol.go:81-91 | A stream that needs no acknowledgement, except perhaps at its last byte, may be cut anywhere |
| `HeaderBlocks.AnyBlockParses` | internal/wni/protocol.go:94-122 | Any block of trimmed fields, empty values included, is read as the map of its fields, later ones replacing earlier ones, and then acted upon by its X-WNI-ID, with LF as with CR LF line ends |
| `HeaderBlocks.ColonLineActs` | internal/wni/protocol.go:94-99 | A line with a colon that does not hold the ping text sets the field named before its first colon to what follows it, both trimmed |
| `HeaderBlocks.OtherLineIgnored` | internal/wni/protocol.go:124-128 | A line with neither a colon nor the ping text, and not blank, is passed over |
| `HeaderBlocks.PingLineActs` | internal/wni/protocol.go:81-92 | The text "GET / HTTP/1.1" anywhere in a line asks for one acknowledgement and forgets the headers |
| `HeaderBlocks.BlankLineActs` | internal/wni/protocol.go:101-122 | A blank line yields the frame of the block's X-WNI-ID, an unknown one under its name with all headers, and for a Data block without a length that can be read nothing |
| `HeaderBlocks.DataBlockActs` | internal/wni/protocol.go:104-150 | A Data block of length n takes the next n bytes as its body, with its X-WNI-Data-MD5, or crashes if n is negative |
| `HeaderBlocks.LastFieldStands` | internal/wni/protocol.go:94-99 | Of several fields of one name the last stands |
| `HeaderBlocks.NegativeLengthCrashes` | internal/wni/protocol.go:101-141 | A Data block that announces any negative length of a 64-bit int crashes, whatever headers precede it and whatever follows |
| `HeaderBlocks.MinusOneCrashes` | internal/wni/protocol.go:101-141 | The input "X-WNI-ID: Data", "Content-Length: -1" and a blank line crashes a new parser |
| `Simulator.RoundTrip` | internal/wnisim/server.go:114-148 | The automaton undoes the printer: for every list of messages with arbitrary bodies it sees exactly those messages in order, acknowledges each ping once and ends in its initial state |
| `Simulator.WireSpelled` | internal/wnisim/server.go:114-148 | The bytes of each kind of message, line by line |
| `Simulator.SessionRoundTrip` | internal/wnisim/server.go:109-176 | What a session gets through until its first failed write, wherever that one is cut off, reads back as the first of the messages sent, whole and each body with its own digest; if no write has failed, as all of them |
| `Simulator.StreamData` | internal/wnisim/server.go:133-148 | A Data block with any body and any hex digest is read back with equal headers, digest and body; this includes the decimal length |
| `Simulator.ChunkedRoundTrip` | internal/wnisim/server.go:114-176 | The same through the chunked parser, for every way of cutting each stretch of messages between pings |
| `Simulator.SegmentAligned` | internal/wnisim/server.go:125-131 | However a stretch of messages that ends in at most one ping is cut, the ping ends its chunk |
| `Simulator.PingSwallowsItsChunk` | internal/wni/protocol.go:85-91 | Whatever follows a ping in its chunk is lost, and so are the headers before it |
| `Simulator.Session.SendData` | internal/wnisim/server.go:133-148 | Writes the bytes of one Data message with the digest of its own body, or a first part of them when the write fails |
| `Simulator.Session.SendDataThenGETPing` | internal/wnisim/server.go:172-176 | One write holds the bytes of a Data message, with the digest of its own body, followed by those of a ping; a first part of them gets through when it fails |
| `Simulator.Session.SendResponseOK` | internal/wnisim/server.go:115-118 | Writes the bytes of the login response, or a first part of them when the write fails |
| `Simulator.Session.SendKeepAlive` | internal/wnisim/server.go:121-123 | Writes the bytes of a Keep-Alive block, or a first part of them when the write fails |
| `Simulator.Session.SendGETPing` | internal/wnisim/server.go:129-131 | Writes the bytes of a ping, or a first part of them when the write fails |
| `Clients.Client.Run` | internal/wni/client.go:87-126 | For every sequence of reads, the handler calls and the way the loop ends are those of the automaton-based session |
| `Clients.Client.DispatchFrames` | internal/wni/client.go:106-121 | The handlers are called as the frames of one read say, in order, after those of earlier reads |
| `Clients.DispatchSpelled` | internal/wni/client.go:107-120 | For any frames, frame by frame: Data calls OnData with its digest and body, Keep-Alive calls OnKeepAlive, Response calls OnResponse with its headers, each only if that handler is set, and Unknown calls nothing |
| `Clients.UnknownCallsNothing` | internal/wni/client.go:107-120 | Frames of unknown kinds alone call nothing, whatever handlers are set |
| `Clients.EndingHasCause` | internal/wni/client.go:89-124 | Over any session the loop ends with the context's, the read's or the acknowledgement's error only if that has happened, and goes on only while every read succeeds |
| `Clients.NoParsedFrameLost` | internal/wni/client.go:100-124 | Whatever is read and wherever an acknowledgement fails, the handlers have been called for exactly the frames completed on the bytes heard, including those before the failing ping in the same read; only the panic loses the frames of its own read |
| `Clients.ClientPanicsExactly` | internal/wni/client.go:87-126 | The loop ends in a panic if and only if the bytes heard hold the end of a Data block with a negative Content-Length |
| `EndToEnd.ClientHearsServer` | internal/wni/client.go:87-126 | A client reading what the simulator writes calls its handlers for exactly the messages sent, in order and however they are cut: the login response gives OnResponse with its three headers, a Keep-Alive block OnKeepAlive, a Data block OnData with digest and body, a ping nothing, and no handler is called that is not set |
| `EndToEnd.TelegramArrives` | internal/app/app.go:305-306 | A telegram the server sends reaches the data handler byte for byte, decodes to the values it was printed from, is archived where the viewer looks for its name, gets its kind of warning into the title, and its IRC text is its message with the link reduced to the label |
| `Queues.Queue.Enqueue` | internal/irc/queue.go:64-85 | A closed queue is unchanged; a known eq_id is replaced in its slot; a new one goes to the end after one eviction if the queue is full; and the history grows by this operation |
| `Queues.Queue.EvictOne` | internal/irc/queue.go:89-98 | Removes exactly the oldest entry among those of the lowest priority present, or nothing from an empty queue |
| `Queues.Queue.RemoveAt` | internal/irc/queue.go:101-105 | Removes one entry and keeps the others in order |
| `Queues.Queue.TryDequeue` | internal/irc/queue.go:113-123 | One pass: takes the oldest entry, or reports ok=false when closed and empty, or has to wait and changes nothing |
| `Queues.Queue.Dequeue` | internal/irc/queue.go:107-124 | Whatever others do during each wait, it waits exactly as long as the queue is empty and open, then takes the oldest entry, or reports ok=false when closed and empty |
| `Queues.Queue.Close` | internal/irc/queue.go:128-133 | Closes without touching what is pending |
| `Queues.Queue.Len` | internal/irc/queue.go:136-140 | The number of distinct pending eq_ids |
| `Queues.Queue.constructor` | internal/irc/queue.go:57-61 | A new queue is empty and open |
| `Queues.EvictionOrder` | internal/irc/queue.go:87-98 | What is evicted is the oldest of its priority; a final notice is evicted only if nothing pending is routine, and a cancellation only if everything pending is a cancellation |
| `Queues.VictimIsUnique` | internal/irc/queue.go:87-98 | No other entry is the oldest among those of the lowest priority present |
| `Queues.PutCases` | internal/irc/queue.go:64-85 | A notice for a known eq_id takes its slot; a new one goes to the end, and if the queue is full exactly the entry to be evicted leaves, the others in order |
| `Queues.ApplyRefines` | internal/irc/queue.go:64-133 | The instrumented history and the queue's list agree after every operation |
| `QueueRuns.PendingIsBounded` | internal/irc/queue.go:27-39 | Over every run the pending eq_ids are distinct and number at most max(capacity, 1) |
| `QueueRuns.DeliveryFollowsOpening` | internal/irc/queue.go:107-124 | Over every run, deliveries followed by the pending entries are in the order in which their slots were opened |
| `QueueRuns.SlotsAreConserved` | internal/irc/queue.go:64-124 | Over every run each slot opened is exactly one of delivered, pending and evicted |
| `QueueRuns.SlotsHoldTheLatest` | internal/irc/queue.go:34-37 | Over every run a slot holds exactly the notices accepted for its eq_id between its opening and its removal, so the one delivered is the latest |
| `QueueRuns.EvictionNeedsPressure` | internal/irc/queue.go:78-105 | Over every run, evicting a notice of some rank takes at least `capacity` eq_ids that have received that rank, and more than `capacity` eq_ids in all |
| `QueueRuns.CancellationsGoLast` | internal/irc/queue.go:87-98 | Over every run, whenever a cancellation was evicted everything pending just before was a cancellation, whenever a final notice was evicted nothing pending was routine, and among equals the oldest slot went; the queue was full |
| `QueueRuns.ImportantNoticesSurvive` | internal/irc/queue.go:5-10 | If fewer than `capacity` earthquakes ever get a notice of at least priority p (for routine notices: at most `capacity`), no notice of at least that priority is ever evicted |
| `QueueRuns.PressureIsTight` | internal/irc/queue.go:5-10 | For every capacity and priority, a run in which just one more earthquake gets that priority and one of its notices is evicted |
| `QueueRuns.DisplacedExactly` | internal/irc/queue.go:34-41 | After every run, an arriving notice costs a more important one if and only if the queue is open and either the notice is for a known eq_id whose pending notice is more important, or it is new, the queue is full and everything pending is more important |
| `QueueRuns.CancellationEvicted` | internal/irc/queue.go:78-105 | A run in which a cancellation is evicted for a routine notice |
| `QueueRuns.CancellationReplaced` | internal/irc/queue.go:71-76 | A run in which a routine notice takes the slot of the cancellation of its own earthquake |
| `QueueRuns.CoalescingForgets` | internal/irc/queue.go:71-76 | After any run, a new report replaces the unsent one altogether, channels and priority included |
| `QueueRuns.CloseDrains` | internal/irc/queue.go:107-133 | After Close the remaining entries leave in order whatever is called in between, later notices are ignored and nothing is evicted |
| `QueueMonitor.NoLostWakeUp` | internal/irc/queue.go:110-133 | In every interleaving of producers, any number of consumers and Close, a consumer parked while no wake-up is pending means an empty, open queue; after Close nobody is parked |
| `QueueMonitor.StepKeepsAwake` | internal/irc/queue.go:64-133 | Each atomic step keeps: while someone is parked the queue is open and each pending notice has a woken consumer |
| `QueueMonitor.MonitorRunsQueue` | internal/irc/queue.go:64-133 | In every interleaving the pending notices are those of a run of the queue, the operations taken in the order in which the mutex was held |
| `QueueMonitor.SlotsAreBounded` | internal/irc/queue.go:27-39 | So in every interleaving the pending eq_ids are distinct and number at most max(capacity, 1) |
| `Dispatchers.Dedup` | internal/irc/dispatcher.go:57-73 | The first occurrences of the lists' elements, in order |
| `Dispatchers.UniqueElements` | internal/irc/dispatcher.go:57-73 | Exactly the given channels, each once |
| `Dispatchers.UniqueGrows` | internal/irc/dispatcher.go:34-44 | The routine channel list is a prefix of the full one |
| `Dispatchers.Dispatcher.ChannelsFor` | internal/irc/dispatcher.go:34-55 | The channels of both lists when the eq_id is not the last one, the type is 10 or the revision is above 0, else the all-notice ones, each once; cancellation before final before normal as priority; and the telegram's eq_id remembered |
| `Dispatchers.Dispatcher.JoinChannels` | internal/irc/dispatcher.go:26-28 | The deduplicated union of both lists |
| `Dispatchers.LimitedFiresOnChange` | internal/irc/dispatcher.go:34-38 | Over every run of telegrams, the limited channels fire exactly on a change of earthquake, a cancellation or a final report |
| `Connections.Connection.Notify` | internal/irc/connection.go:106-117 | Enqueues one notice, into a queue of 32: the telegram's eq_id, the channels of both lists or the all-notice ones, the text without its links, and the priority of a cancellation, a final or a normal report; or nothing when no channel is selected |
| `Connections.Connection.Next` | internal/irc/connection.go:222-225 | The writer gets the oldest pending notice, or learns that the queue is closed and empty, or has to wait |
| `Connections.Connection.Deliver` | internal/irc/connection.go:227-245 | A notice goes to its channels whose names can be encoded, or to none if its text cannot |
| `Connections.SentIsJoined` | internal/irc/connection.go:169-177 | Whatever is sent of a notice that came about by Notify goes to a configured channel that has been joined |
| `Connections.EncodableKeepsOrder` | internal/irc/connection.go:227-245 | Each channel is sent to or passed over by whether its own name can be encoded, and the order of the others stays |
| `Connections.Connection.Shutdown` | internal/irc/connection.go:166 | The queue is closed, and what is pending stays for the writer |
| `Connections.NoticesAreProper` | internal/irc/connection.go:106-117 | Over every run of Notify, deliveries and Close, with coalescing and eviction, each pending, delivered or evicted notice was made of a telegram and has a non-empty duplicate-free list of joined channels; final and cancelling ones carry all of them, as do all notices when the all-notice list is empty |
| `NoticeTexts.NoticesConveyTelegrams` | internal/irc/connection.go:106-117 | Over every run in which Notify is told of decoded raw telegrams with their Slack messages, each notice pending, delivered or evicted has the eq_id and priority of one of the telegrams and a text that says in full what it says, with the label in place of the link and no markup |
| `LimitedNotices.LimitedHearExactly` | internal/irc/queue.go:71-76 | Over every run of Notify, deliveries and Close, with coalescing and eviction, the writer is handed a notice of an earthquake for a channel that is only on the limited list if and only if some report of it that changes the earthquake, is final or cancels is still the latest one in the queue when the writer takes that earthquake's notice |
| `LimitedNotices.LeavesAsMade` | internal/irc/dispatcher.go:34-44 | The notice of a report that is still the latest when its earthquake is taken leaves the queue as it was made, channels and all |
| `LimitedNotices.DeliveredIsTaken` | internal/irc/queue.go:110-124 | Over every run the notices delivered are exactly those that stood at the head of the queue when the writer asked |
| `LimitedNotices.RoutineOvertakes` | internal/irc/queue.go:71-76 | For every first report followed by a routine one before the writer comes: the limited channels were selected but the writer is handed nothing for them, only for the all-notice channels |
| `Connections.Connection.HandleConnected` | internal/irc/connection.go:169-183 | Joins every channel whose name can be encoded and opens the way for every writer waiting on the current ready channel; it panics if and only if two CONNECTED have come in a row in the whole history |
| `Connections.Connection.HandleDisconnected` | internal/irc/connection.go:185-196 | Writers from now on wait on a channel that is open and was never used before, the other channels stay as they are, and the reconnect token is there |
| `Connections.Connection.TakeToken` | internal/irc/connection.go:142-145 | Run gets past its select if and only if a DISCONNECTED has come since it last did, whenever that was |
| `Connections.TokenExactly` | internal/irc/connection.go:192-195 | Over every interleaving the one-place channel holds a token exactly when a DISCONNECTED has come since one was last taken: no drop is missed and none is noticed twice |
| `Connections.StaleTokenExactly` | internal/irc/connection.go:128-145 | While Run connects or sleeps a token is left over for the next connection if and only if a DISCONNECTED has come in that time |
| `Connections.PanicsExactly` | internal/irc/connection.go:180-190 | For every interleaving, a closed channel is closed again if and only if two CONNECTED come without a DISCONNECTED in between |
| `Connections.ReadyChannelIsSafe` | internal/irc/connection.go:169-211 | While CONNECTED and DISCONNECTED alternate, CONNECTED first, nothing panics and a waiting writer waits on the current or a closed channel |
| `Connections.WriterGetsThrough` | internal/irc/connection.go:200-211 | In the same runs a waiting writer gets past its gate while the connection is up, and one that comes to the gate gets past it if and only if the connection is up |
| `Connections.StrandedExactly` | internal/irc/connection.go:185-225 | Without a double CONNECTED, some timing of the writer leaves it on a channel that will never be closed if and only if some DISCONNECTED does not follow a CONNECTED |
| `Connections.StrandedUntilCancel` | internal/irc/connection.go:200-211 | A stranded writer stays stranded, whatever happens later, for as long as the context is not cancelled, and cancelling it releases the writer |
| `Backoff.Run` | internal/irc/connection.go:127-160 | Start times, sleeps, backoff and end of the loop for every sequence of attempts and every place where cancellation cuts in: after k consecutive unstable attempts the backoff is min(60, 2^k) seconds |
| `Backoff.Turn` | internal/irc/connection.go:127-160 | Each attempt in nanoseconds: the backoff is at first 1 s; a refusal sleeps it and doubles it, at most to 60 s; a connection up for 30 s resets it to 1 s and sleeps nothing; a shorter one doubles it first and sleeps that |
| `Backoff.LadderStep` | internal/irc/connection.go:257-276 | The backoff doubles up to 60 seconds and is never below one second |
| `Backoff.UnstableAttemptsSleep` | internal/irc/connection.go:150-159 | Any n consecutive unstable attempts sleep at least the sum of min(60, 2^i) seconds for i < n, even if every connection is accepted and dropped at once |
| `Backoff.AttemptRate` | internal/irc/connection.go:127-160 | A window of T seconds sees at most T + 1 connect attempts |
| `Decoder.Decode` | internal/decoder/decoder.go:82-94 | The imperative loop computes the fold of the lines |
| `Decoder.Telegram.ReadLine` | internal/decoder/decoder.go:85-91 | Exactly the first matching pattern of the line is applied |
| `Decoder.Telegram.TryHeader` | internal/decoder/decoder.go:103-117 | On a match sets the header fields, by `HeaderLine` as the leftmost match has them, else changes nothing |
| `Decoder.Telegram.TryEqTime` | internal/decoder/decoder.go:119-126 | On twelve leading digits sets the detection time |
| `Decoder.Telegram.TryND` | internal/decoder/decoder.go:128-146 | Sets the report fields; a one-digit tail keeps the report number |
| `Decoder.Telegram.TryHypocenter` | internal/decoder/decoder.go:148-175 | On a match sets the hypocenter fields from the leftmost match |
| `Decoder.Telegram.TryEBI` | internal/decoder/decoder.go:177-201 | Adds the entries of all non-overlapping matches from left to right |
| `Decoder.NdGroupsAreForced` | internal/decoder/decoder.go:74 | The repetitions of the ND pattern can match in one way only, up to how many trailing digits are taken, and the greedy match takes all |
| `Decoder.Search` | internal/decoder/decoder.go:104 | The leftmost position at which a pattern matches, or none |
| `Regexps.HeaderRegexp` | internal/decoder/decoder.go:72 | The regular expression of the header matches from i up to e exactly where the decoder sees a header at i, and e is i + 25 |
| `Regexps.TimeRegexp` | internal/decoder/decoder.go:73 | The same of the twelve leading digits |
| `Regexps.NdRegexp` | internal/decoder/decoder.go:74 | The regular expression of the ND line matches up to e exactly when capitals run from i + 17 to some place and digits from there to e |
| `Regexps.HypocenterRegexp` | internal/decoder/decoder.go:75 | The same of the hypocenter's 48 characters |
| `Regexps.EbiRegexp` | internal/decoder/decoder.go:76 | The same of an area's 19 characters |
| `LineReadings.HeaderLine` | internal/decoder/decoder.go:103-117 | A line in which the header expression matches first at i sets code, section, type (the number at i + 6), time and command from the characters there, with the table texts, and nothing else |
| `LineReadings.EqTimeLine` | internal/decoder/decoder.go:119-126 | A line without a header that begins with twelve digits sets the detection time to them, and nothing else |
| `LineReadings.NdLine` | internal/decoder/decoder.go:128-146 | Else the first ND match sets eq_id, code, the revision from the first trailing digit and the number from the next two, or the one that is left; without any the number stays |
| `LineReadings.HypocenterLine` | internal/decoder/decoder.go:148-175 | Else the first hypocenter match sets every field from its own characters and table, a number holding a slash reading as 0 |
| `LineReadings.EbiLine` | internal/decoder/decoder.go:177-201 | Else all matches that do not overlap, from left to right, set their areas' entries, field by field, the last of an area standing; other areas stay |
| `LineReadings.OtherLine` | internal/decoder/decoder.go:85-91 | A line that no expression matches changes nothing |
| `LineReadings.LastLineActs` | internal/decoder/decoder.go:82-101 | For any bytes, a line added after a CR or LF acts on what the bytes before it decode to; an empty one does not act |
| `DecoderFacts.KindsAreIndependent` | internal/decoder/decoder.go:79-94 | Decoding depends only on the lines of each kind and their order among themselves; interleaving and unmatched lines do not matter |
| `DecoderFacts.LaterLineWins` | internal/decoder/decoder.go:103-201 | A later line of a kind hides an earlier one, except that EBI areas accumulate and an ND line does so if and only if its tail has a second digit or the earlier line left the report number alone |
| `DecoderFacts.DecodedRanges` | internal/decoder/decoder.go:82-175 | For all bytes: times empty or 12 digits, eq_id empty or 14 digits, report number 0 to 99, latitude and depth up to 999, longitude up to 9999 and magnitude up to 99 (in tenths, depth in km), names from the tables |
| `TelegramText.HeaderDecodes` | internal/decoder/decoder.go:72 | A printed header line is recognised as one and gives back its fields, the type as the number printed |
| `TelegramText.EqTimeDecodes` | internal/decoder/decoder.go:73 | A printed time line is not taken for a header and gives back the time |
| `TelegramText.ReportDecodes` | internal/decoder/decoder.go:72-74 | A printed ND line with any tail is read as one if and only if the header pattern does not match within its number and tail, and then gives back eq_id, code, finality and report number |
| `TelegramText.HypocenterDecodes` | internal/decoder/decoder.go:75 | A printed hypocenter line matches no earlier pattern and gives back its numbers, unset fields reading as 0 |
| `TelegramRoundTrip.EbiDecodes` | internal/decoder/decoder.go:76 | A printed EBI line, tagged or not, matches no earlier pattern and gives all its areas in order |
| `TelegramRoundTrip.DecodeOfPrinted` | internal/decoder/decoder.go:82-201 | Decoding a printed telegram gives back exactly the values it was printed from, with any unmatched lines before and after |
| `TelegramRoundTrip.PrintedReads` | internal/decoder/decoder.go:53-59 | Field by field, what a printed telegram's header, time and ND lines decode to, with the table texts; it is a cancellation if and only if its type is printed 10, and final if and only if its revision digit is above 0 |
| `TelegramRoundTrip.PrintedHypocenterReads` | internal/decoder/decoder.go:148-175 | The same of the hypocenter: numbers, 0 where slashes are printed, the single characters of the accuracy codes and the table texts |
| `TelegramRoundTrip.PrintedAreasRead` | internal/decoder/decoder.go:177-201 | The same of the areas: exactly those printed, each as its last entry has it |
| `TelegramRoundTrip.DecodeOfShuffled` | internal/decoder/decoder.go:82-201 | The same for its lines in any order that keeps each kind's own order |
| `TelegramRoundTrip.SplitUnlines` | internal/decoder/decoder.go:99-101 | Splitting joined lines gives the lines back |
| `TelegramRoundTrip.LaterAreasWin` | internal/decoder/decoder.go:185-199 | For a repeated area the last entry stands, and areas not mentioned are untouched |
| `TelegramRoundTrip.EbiLinesAreOneList` | internal/decoder/decoder.go:177-201 | How the areas are divided into lines does not matter |
| `Text.AtoiOfDecimal` | internal/decoder/decoder.go:213-219 | Reading a printed number gives it back |
| `TextFacts.AtoiMeans` | internal/decoder/decoder.go:213-219 | A text reads as v if and only if it is an optional sign and at least one digit with that value, within 64 bits |
| `TextFacts.ValueMeans` | internal/decoder/decoder.go:213-219 | Digits are read from the left, each worth its code above that of '0' |
| `TextFacts.SignedMeans` | internal/eewmsg/format.go:30 | A number prints as its digits without leading zeros, with a minus sign if it is negative |
| `TextFacts.ContainsMeans` | internal/wni/protocol.go:81 | A text contains another if and only if it is that text with something before and after it |
| `TextFacts.TrimTakes` | internal/wni/protocol.go:95-96 | Trimming takes white space off both ends, all of it, and nothing else |
| `Archive.SplitInvertsNaming` | internal/eewview/list.go:43-53 | Exactly two digit strings joined by a dot, the second fitting an int, are split, into those two |
| `ArchiveFacts.NamesSplit` | internal/eewview/list.go:39-53 | Any name is split into x and n if and only if it is x, a dot and digits of value n within 64 bits |
| `ArchiveFacts.DetailNameMeans` | internal/eewview/detail.go:21 | The names with a page of their own are fourteen digits, a dot and one to four digits |
| `Archive.LessIsLexicographic` | internal/eewview/list.go:58-65 | On accepted names the comparator is the lexicographic order on eq_id string and report number |
| `Archive.LessIsStrictWeakOrder` | internal/eewview/list.go:58-65 | On accepted names it is a strict weak order that ties exactly the names with equal parts |
| `Archive.LessCanCycle` | internal/eewview/list.go:159-168 | With one name that is not accepted, three names form a cycle |
| `Archive.SortedListing` | internal/eewview/list.go:168 | In any sorted listing the reports of an earthquake stand together and their numbers do not decrease |
| `ArchiveFacts.ListingAscends` | internal/eewview/list.go:168 | In any sorted listing the eq_ids ascend as strings and the numbers of one earthquake as numbers |
| `ArchiveFacts.LexLessMeans` | internal/eewview/list.go:64 | Strings compare by their first difference, a proper prefix coming first |
| `ArchiveFacts.FilesAt` | internal/eewlog/store.go:54-61 | The archive path is the data directory's, followed by year, month and day of the eq_id, if there is one, and the name made of eq_id, dot and number |
| `ArchiveFacts.CleanDrops` | internal/eewview/detail.go:106-119 | Cleaning a path drops empty parts and dots, and a name with the ".." behind it, wherever they stand |
| `ArchiveFacts.CleanAbove` | internal/eewview/detail.go:106-119 | There is nothing above the root, leading ".." stay in a relative path, and names stay |
| `Archive.DetailPathStaysInside` | internal/eewview/detail.go:102-122 | For a validated name the containment check never fails, whatever the data directory ("./eewlog/", ".", "..", absolute), and the resolved path is the directory's own followed by year, month, day and name |
| `Archive.ArchiveRoundTrip` | internal/eewlog/store.go:54-60 | Whatever was decoded, the archived name is accepted by the viewer, splits into the same pair, and both programs compute the same path |
| `Archive.PathsAreDistinct` | internal/eewlog/store.go:54-60 | Two reports, with or without an eq_id, share a path if and only if eq_id and number are equal |
| `Viewer.NumericSubdirs` | internal/eewview/list.go:75-92 | The subdirectories whose names start with a digit, in directory order; none if the directory cannot be read |
| `Viewer.NumericNamesSorted` | internal/eewview/list.go:90 | The final sort of that list changes nothing |
| `Viewer.ListHandler` | internal/eewview/list.go:99-181 | The page for every query, also when the data directory is missing: the level that the parameters lead to, with its links or its sorted readable files, or the error page when the day cannot be read |
| `Viewer.PageSpelled` | internal/eewview/list.go:99-181 | The page by levels: years unless the year's directory exists, months unless the month's does, days unless the day's does, the error page if the day cannot be read, else the day's files, for the year within 2000 and 3000, the month within 1 and 12 and the day within 1 and 31 |
| `Viewer.SaturateMeans` | internal/eewview/list.go:22-37 | An absent parameter is 0; any other is its number within the limits, or the lower limit if it is not a number |
| `Viewer.NumbersExact` | internal/eewview/list.go:75-116 | A page links, in directory order, to the numbers of exactly those subdirectories whose names begin with a digit and are numbers |
| `Viewer.DayPageIsExact` | internal/eewview/list.go:153-180 | A day's page lists exactly the directory's readable files with an acceptable name, sorted |
| `Viewer.FileIsReachable` | internal/eewview/list.go:99-181 | From the root page the links for year, month and day lead to a page that lists the file if and only if it and the directories above it can be read and no directory answers to an absent parameter |
| `ArchiveRuns.FiledKeeps` | internal/eewlog/store.go:65-74 | Filing any decoded telegram, dated or not, keeps the tree well-formed and every file already there, puts the file into its home and makes no other directories than those above it |
| `ArchiveRuns.DecodedIsFiling` | internal/eewlog/store.go:54-74 | Every raw telegram decodes to an eq_id and number that can be filed, and the final path is the home directory and name used here |
| `ArchiveRuns.DirsOfRun` | internal/eewlog/store.go:65-69 | Over every run of filings the directories are exactly the root and those above some filed file |
| `ArchiveRuns.FiledIsReachable` | internal/eewview/list.go:99-181 | Over every run of filings of any decoded telegrams, the links for a file's date reach it if and only if it has an eq_id with a date within the viewer's limits, it can be read, and no filing has month 00 in its year or day 00 in its month |
| `ArchiveRuns.DetailLinkOpens` | internal/eewview/detail.go:102-122 | The detail link of every filed telegram with an eq_id opens the path it was filed under |
| `ArchiveRuns.StrayFiling` | internal/eewview/list.go:122-135 | Once a telegram with eq_id 20130017000000 is filed, whatever else has been, the page for 2013 lists no months |
| `Viewer.AbsentParameter` | internal/eewview/list.go:104-151 | Each level is listed for an absent parameter if and only if no directory is named "0", "00" there |
| `Messages.LazyMatch` | internal/irc/link.go:8 | The lazy pattern matches at a position if and only if a bar and then a bracket follow on the line, and takes the nearest of each |
| `Messages.StripOne` | internal/irc/link.go:12-14 | A link is replaced by its label |
| `MessageTexts.NoLinkStays` | internal/irc/link.go:8-14 | A '<' at which no link begins stays, and what follows is stripped by itself |
| `Messages.SplitPairs` | internal/eewmsg/format.go:54-60 | The k-th chunk is characters 2k and 2k + 1, and there are half as many as characters, an odd last one dropped |
| `MessageReading.TextTellsReport` | internal/eewmsg/format.go:19-44 | The texts of two raw telegrams are equal if and only if they agree in both times, report number, finality and cancellation, and unless cancelled in place, depth, magnitude and intensity |
| `MessageReading.ParenthesesInUnsetOnly` | internal/decoder/tables_gen.go:154-156 | The program's epicenter table meets the condition of these results: the name of a cancelled telegram is the only one with a closing parenthesis, and the text that follows a name does not occur in it |
| `MessageReading.TitleTellsType` | internal/eewmsg/format.go:46-49 | Two titles are equal if and only if the kinds of warning are |
| `MessageTexts.SlackTextReads` | internal/eewmsg/format.go:19-51 | The Slack message of any raw telegram, spelled out: both times, number, mark of a final report, and either the words of a cancellation or link, name, depth, magnitude and intensity; and its title |
| `MessageTexts.OnlyCancellationsSaySo` | internal/eewmsg/format.go:34-44 | For any raw telegram the Slack and the IRC text end in " 取り消されました" if and only if the type is 10, as long as no intensity is named so |
| `MessageTexts.IrcTextReads` | internal/irc/link.go:8-14 | The IRC message of any raw telegram, spelled out in the same way with the label alone |
| `Messages.StripOfFormat` | internal/irc/link.go:8-14 | For every raw telegram, stripping the formatted text gives the same text with the label in place of the link, free of markup and unchanged by stripping again |
| `MessageReading.IrcTextTellsReport` | internal/irc/link.go:8-14 | The same holds of what IRC gets, without the link: nothing that the text told is lost |

## Left out

- Text.TrimSpace: strips ASCII white space only; strings.TrimSpace also strips multi-byte Unicode spaces.
- FrameParsers.FrameParser.Feed: works on values; the sharing of backing arrays between `p.buf` and slices taken from it is not modelled (the body is copied before it leaves the parser).
- FrameParsers.AckMessage: the formatted clock reading in it is an arbitrary string.
- Simulator.Session.SendData: MD5 is not computed, the digest is an arbitrary function of the body.
- Clients.Client.Run: read deadlines and the 64 KiB read buffer are not modelled; a read delivers any bytes.
- Clients.NoParsedFrameLost: says nothing of the frames of the one read in which the parser panics, because the original loses them with the goroutine.
- QueueMonitor.NoLostWakeUp: safety only; that the scheduler lets a woken consumer run is not stated.
- Connections.StrandedExactly: the writer's steps are looking at the channel, passing it, coming back and leaving on cancellation; what it sends in between, and a send after a drop that happens while it waits in Dequeue, are not modelled.
- Decoder.Decode: an EBI map that was never made and an empty one are the same; floating-point fields are kept in tenths.
- Decoder.MatchesAt: the regular expressions are matched on bytes, not on UTF-8 characters.
- Viewer.ListHandler: HTML rendering, URL escaping and summaries are left out; os.ReadDir's order is taken from the tree, and a directory that exists can be stat'ed.
- Connections.Connection.Shutdown: whether the IRC connection is up, its QUIT and its closing are the library's.
- Simulator.SessionRoundTrip: says nothing of what is written after a write that has failed.
- Viewer.SortNames: an insertion sort in place of sort.Slice; only its contract is used.
- Archive.Path: splitting a path at its slashes and putting it together again are left to the reader, except in the containment check; the working directory can always be read.
- ArchiveRuns.FiledKeeps: file contents, temporary files in the top directory and file system errors are left out.
- Messages.Format: the arithmetic of the tenths is exact, as %.1f prints it.
- EndToEnd.TelegramArrives: the Slack hooks that Process selects, and what it does when the archive cannot be written, are left out.
- goirc, character set encoders, HTTP servers and clients, configuration, logging, the Slack notifier and its dispatcher, the server list and the app's reconnect loop are not part of this model.
- wnisim's AwaitLogin and AwaitAck, and the login request, are left out: they parse lines as the frame parser does, on a simpler path.
- The contents of the generated tables and the table generator are left out.
