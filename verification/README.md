# Intel AMT collection: a verified model

A Dafny model of the protocol code of an Ansible collection for Intel AMT, with
the properties the collection relies on proved for all inputs, all runs and all
interleavings. `dafny verify dfyconfig.toml` checks everything.

## What is modelled

**The IDE-R engine** (`plugins/module_utils/ider.py`). Firmware mounts disk
images of the controller over a byte stream. `Framing` cuts messages out of an
accumulating buffer, generically in what a message means; `IderTarget` gives
every message its effect on the engine's state; `IderEngine` is the engine as it
runs, objects whose methods update fields, each method tied to the function of
the same name. `IderInvariants` and `IderSession` say what every message keeps,
`IderOpening` how a session begins, `IderReads`, `IderWrites`, `IderService` and
`IderReentry` what READs, WRITEs, lists of reads and a re-entrant transport come
to, `IderCapacity` what READ CAPACITY reports. `MockCodec` and
`MockServer` are the firmware side of the integration tests, and
`IderComposition` joins both sides through the real encoders and decoders.

**The detached session** (`plugins/module_utils/media_session.py`, `_attach` in
`plugins/modules/amt_media.py`). `MediaSession` is a state machine: the
attaching process, the daemon it forks and any polling reader take one system
call on the state file at a time, in any order, over inodes and a path; the
daemon runs the engine itself. `AttachSafety` proves what every run keeps,
`AttachReads` what a poll finds, `AttachRun` that an attach to the mock firmware
can succeed. `Contention` has any number of attaches for one session id and the
daemons they fork, over the same state file (`StateFile`), and `SingleDaemon`
says when one of them stays the only one.

**The redirection handshake** (`plugins/module_utils/redirection.py`).
`Handshake` is the handshake as a function of the byte stream and its
conversation with the mock firmware, `Redirection` the session object over a
socket that delivers segments, `MediaLink` the handshake followed by the engine.

**WS-Man clients** (`plugins/module_utils/wsman.py`, `message_log.py`,
`boot.py`). `WsmanValues` converts elements to values and back, `Requests` is
the retry loop and the handling of a response, `Enumeration` and `LossyEnumeration` are Enumerate and Pull
against the paging server, `MessageLog` and `MockLog` the event log read against
any firmware and against the mock's log, `BootPlan` and `BootArming` the five
steps of a one-time boot against a firmware that may refuse, or carry out
without answering, any of them.

**Certificates and evidence** (`plugins/module_utils/tls.py`,
`tests/hardware/redact-evidence.py`). `Der` is the DER reader with the
certificate fields built on it, `Pseudonyms`, `Redaction` and `Redactor` the
pseudonym allocator and the rebuilding of JSON trees.

Environments are parameters: firmware's answers, segments of a connection,
liveness, deadlines, digests, base64, pattern matching, lower-casing and text
rendering are functions or choices nothing is assumed about, so every statement
holds for all of them.

## Where the code and its documentation differ

The model follows the code.

- `read_records` says it never loops for ever. The stall check compares an
  identifier with the previous one only, so empty batches under alternating
  identifiers do (`MessageLog.AlternatingNeverEnds`; the exact condition is
  `MessageLog.NeverEndsIff`).
- `enumerate` says a request is safe to retry. A Pull whose connection breaks
  after the server has answered is repeated, and the page it took off the
  server's list is lost; a repeated Enumerate leaves a context behind
  (`LossyEnumeration.WholeListIff`).
- `enumerate` searches the whole response for `Fault`, `EndOfSequence` and
  `EnumerationContext`, the items included (`Enumeration.CollectIff`,
  `Enumeration.LostItems`).
- A pending write is meant to end with one response. Empty DATA_FROM_HOST frames
  behind its last byte are no longer part of it and are each refused
  (`IderWrites.FragmentationInvariance`).
- An unparsable read of the state file can also be completed after the daemon's
  first write, if the file was opened before it
  (`AttachSafety.TornReadAfterWrite`).
- An attach is meant never to start a second session beside a live one. It reads,
  decides and forks without a lock, so two can fork, and one that has read a dead
  record can remove a live one (`SingleDaemon.BothFork`,
  `SingleDaemon.LiveRecordRemoved`; the exact condition is
  `SingleDaemon.OnlyDaemonIff`).
- `_write_state_if_absent` leaves a file that does not parse where it is, so a
  session can be running with no record of it until its daemon's first write
  (`SingleDaemon.SpawnedIsGuarded`).
- Redacting twice is said to change nothing. A text under an identifying key in
  which a pattern has replaced a part is not a token as a whole, and a second pass
  replaces it (`Redaction.SecondPassRenames`; the exact condition is
  `Redaction.SecondPassIff`).
- CD contents never change as long as the CD's file is not also attached as a
  writable floppy; nothing prevents that (`IderComposition.ImmutableIff`).
- Boot settings are said to be carried through unchanged. A list is sent back as
  one text, and white space at the ends of a text is lost
  (`BootArming.UnrelatedIff`).

## Model

| member | source | states |
|---|---|---|
| `Framing.PeekStable` | plugins/module_utils/ider.py:503-519 | the length found for a message depends only on bytes already there: more bytes behind it never change it |
| `Framing.DrainMessage` | plugins/module_utils/ider.py:473-501 | a complete in-sequence message at the head of the buffer is handled once, exactly, and the sequence number moves by one modulo 2^32 |
| `Framing.FeedTwice` | plugins/module_utils/ider.py:473-501 | feeding two chunks one after the other carries on where feeding the first left off, as one feed of both would |
| `Framing.Segmentation` | plugins/module_utils/ider.py:473-501 | feeding a stream in any chunks gives the outcome, the frames, the media and the inbound counter of one feed of the whole stream and, while the session is live, the same leftover |
| `Framing.SegmentationInvariance` | plugins/module_utils/ider.py:473-501 | any two ways of cutting the same stream into chunks give the same run in that sense, for every handler |
| `Framing.FeedMessages` | plugins/module_utils/ider.py:473-501 | a stream of whole, correctly numbered messages, whose numbers may wrap, is handled message by message, leaving nothing in the buffer |
| `Framing.NoResync` | plugins/module_utils/ider.py:473-501 | after a sequence mismatch or an unknown command the buffer is empty, the engine is stopped, and nothing fed later has any effect |
| `IderEngine.MediaImage.Open` | plugins/module_utils/ider.py:219-250 | an image is accepted exactly for a known device, not a writable CD, with a size that is a multiple of 512, and starts with zero counters |
| `IderEngine.MediaImage.Read` | plugins/module_utils/ider.py:267-271 | returns what the file still has of the range and counts exactly that many bytes |
| `IderEngine.MediaImage.Write` | plugins/module_utils/ider.py:273-291 | writes exactly when the image is writable and the range is inside it; otherwise nothing changes |
| `IderEngine.IderEngine.SendCommand` | plugins/module_utils/ider.py:412-416 | one frame is appended with the next sequence number; nothing else changes |
| `IderEngine.IderEngine.Start` | plugins/module_utils/ider.py:404-410 | the OPEN_SESSION frame with its timeouts is the only effect |
| `IderEngine.IderEngine.AdmitRead` | plugins/module_utils/ider.py:790-809 | an out-of-range or empty READ is answered at once; any other becomes the current read or the last in the queue |
| `IderEngine.IderEngine.ReadChunk` | plugins/module_utils/ider.py:811-850 | the next chunk is what the file has of at most readbfr bytes of what remains |
| `IderEngine.IderEngine.PumpRead` | plugins/module_utils/ider.py:811-878 | the pump loop terminates and leaves the state the pump function gives, whatever the transport delivers while it sends |
| `IderEngine.IderEngine.ScsiRead` | plugins/module_utils/ider.py:790-809 | a READ moves the whole engine as the READ function does |
| `IderEngine.IderEngine.ScsiWrite` | plugins/module_utils/ider.py:882-903 | a WRITE is refused, or becomes the pending write and asks for its bytes |
| `IderEngine.IderEngine.OnDataFromHost` | plugins/module_utils/ider.py:905-941 | a payload frame is stored, completes the write, overruns it or was not asked for, with the answer of each case; the guard of MediaImage.write shows in the verdict |
| `IderEngine.IderEngine.OnResetOccurred` | plugins/module_utils/ider.py:576-580 | a reset is acknowledged at once when no read is in progress, otherwise noted for the pump |
| `IderEngine.IderEngine.OnOpenSessionReply` | plugins/module_utils/ider.py:547-563 | an unacceptable reply raises; an acceptable one opens the session and sends the feature toggle |
| `IderEngine.IderEngine.OnStatusData` | plugins/module_utils/ider.py:565-574 | REGS_AVAIL resends the toggle, REGS_STATUS and REGS_TOGGLE are recorded, other types ignored |
| `IderEngine.IderEngine.HandleScsi` | plugins/module_utils/ider.py:591-644 | every opcode reaches its handler and no other state moves |
| `IderEngine.IderEngine.Handle` | plugins/module_utils/ider.py:521-545 | every command identifier reaches its handler, with the fields cut out of the message |
| `IderEngine.IderEngine.TakeMessage` | plugins/module_utils/ider.py:473-501 | one complete message is removed, counted and handled |
| `IderEngine.IderEngine.Feed` | plugins/module_utils/ider.py:473-501 | the receive loop over the buffer terminates, keeps the engine valid, and ends in the state and with the outcome of the framing function applied to the SCSI target |
| `IderInvariants.DispatchStep` | plugins/module_utils/ider.py:521-545 | every message keeps the invariant: frames numbered consecutively, image sizes and every file but the writable floppy's unchanged, a pending write on a writable floppy, in bounds and incomplete, the read buffer at most 8192, the pump idle; only a bad open reply or READ CAPACITY can raise |
| `IderInvariants.PumpAllStep` | plugins/module_utils/ider.py:811-878 | the pump keeps numbering and media whatever re-enters, and leaves no current read, an empty queue and no pending reset |
| `IderInvariants.MediaWriteKept` | plugins/module_utils/ider.py:273-291 | the only file a write can change is the pending write's, inside the size the image was opened with |
| `IderInvariants.DataFromHostStep` | plugins/module_utils/ider.py:905-941 | payload frames keep the invariant, and neither guard of MediaImage.write ever fires |
| `IderSession.FeedQuiet` | plugins/module_utils/ider.py:473-501 | any bytes at all keep the invariant, and no guard of MediaImage.write fires |
| `IderSession.WholeSession` | plugins/module_utils/ider.py:341-541 | from start to whatever end and for any chunks: the n-th frame carries n modulo 2^32, no file but the writable floppy's changes, a write stays pending only in bounds, and a floppy file of the size it was opened with keeps that size |
| `IderSession.FeedTracks` | plugins/module_utils/ider.py:547-574 | after any feed the toggle verdict is that of firmware's latest REGS_TOGGLE, and the session is open exactly when an acceptable reply has arrived |
| `IderCapacity.RaisesIff` | plugins/module_utils/ider.py:677-686 | the one raise that leaves the session running happens exactly for READ CAPACITY on a non-empty image of less than one sector or more than 2^32 |
| `IderCapacity.TooSmallIsACd` | plugins/module_utils/ider.py:219-242 | among images that can be opened, only a CD of 512, 1024 or 1536 bytes is too small |
| `IderCapacity.CapacityReported` | plugins/module_utils/ider.py:677-686 | otherwise one completed frame, from which firmware computes the image's own block count and block length |
| `IderReads.DecodeData` | tests/integration/mock_servers/ider_server.py:249-257 | firmware decodes a DATA_TO_HOST frame of the engine to exactly its device, data, completion and DMA flag |
| `IderReads.DecodeOverlong` | plugins/module_utils/ider.py:443-465 | a frame of more than 65535 bytes is decoded by nobody: its length field is cut to 16 bits |
| `IderReads.DecodeEnd` | tests/integration/mock_servers/ider_server.py:204-213 | firmware decodes a COMMAND_END_RESPONSE of the engine to exactly its error flag and sense |
| `IderReads.PumpDelivers` | plugins/module_utils/ider.py:811-878 | a lone read sends what the file has of the range in chunks of at most readbfr (in one chunk for a readbfr of 0), the last one marked completed exactly if all of it was there, otherwise one sense 03/11 |
| `IderReads.ReadDelivers` | plugins/module_utils/ider.py:790-878 | any accepted READ, over a file that may have been truncated since it was opened, delivers so if and only if readbfr is not 0 or the data fits one 16-bit length |
| `IderReentry.DeliverBatch` | plugins/module_utils/ider.py:790-809 | reads and resets arriving during one send are queued in order, refused ones answered at once |
| `IderService.ServeDelivers` | plugins/module_utils/ider.py:811-878 | the exact events a list of reads is owed are, read by read, what firmware can reassemble: what the file has in chunks, or what it still has of it and a medium error |
| `IderService.ServeAllFrames` | plugins/module_utils/ider.py:811-878 | the number of data frames a list of reads is owed is the sum over the reads of what their data takes at readbfr bytes a frame |
| `IderReentry.PumpObeysLaw` | plugins/module_utils/ider.py:811-878 | however the environment re-enters, the pump comes to rest; without a reset it has sent exactly what all reads are owed, in arrival order, and no acknowledgement; with a reset exactly what the reads before it are owed, up to and including the frame during which it came, which is one frame for each delivery met, then one acknowledgement and nothing else |
| `IderReentry.ReadObeysLaw` | plugins/module_utils/ider.py:790-878 | a READ accepted by an idle engine starts a run that obeys this law; for a readbfr of 0 the data of every read must fit one 16-bit length |
| `IderReentry.AnsweredExactly` | plugins/module_utils/ider.py:811-878 | which accepted reads are answered: all without a reset; with one, exactly those for which all frames up to their last fit into the frames sent, where a read the file does not hold completely needs one frame more to be sent behind it |
| `IderReentry.LateReadsAreDropped` | plugins/module_utils/ider.py:576-580 | a READ that arrives during the same send as the reset is queued and never answered |
| `IderWrites.PartialWrite` | plugins/module_utils/ider.py:905-941 | fragments that do not fill the write are stored one behind the other, nothing is answered, and the write stays pending |
| `IderWrites.WriteCompletes` | plugins/module_utils/ider.py:905-941 | however the bytes are cut, the one slice is replaced and success is reported once; empty fragments after the last byte are each refused |
| `IderWrites.FragmentationInvariance` | plugins/module_utils/ider.py:905-941 | the file after the expected bytes does not depend on their fragmentation; success is the only answer exactly when the last fragment carries data |
| `IderWrites.OverrunRefused` | plugins/module_utils/ider.py:905-941 | an overrunning frame writes nothing, clears the pending write and is answered by sense 05/21 once; earlier fragments stay |
| `IderWrites.Unasked` | plugins/module_utils/ider.py:905-941 | payload nobody asked for changes no medium and is refused frame by frame |
| `MockServer.IderMockServer.IssueScsi` | tests/integration/mock_servers/ider_server.py:727-731 | the command frame put on the wire carries the CDB, the device flag and the mock's own counter |
| `MockServer.IderMockServer.SendDataFromHost` | tests/integration/mock_servers/ider_server.py:733-744 | the wire gets the payload in frames of the given size, numbered consecutively, and one empty frame for an empty payload |
| `MockServer.IderMockServer.ReaderLoop` | tests/integration/mock_servers/ider_server.py:675-725 | the loop reports what the reading function gives of a stream: events, the next expected number, the incomplete rest, and whether it ended, be it by a violation, a close, or a frame it cannot decode; every ping is answered by the next numbered pong |
| `MockServer.IderMockServer.ReadDataToHostStream` | tests/integration/mock_servers/ider_server.py:774-794 | events are taken up to the first completed frame and their data joined; anything else in between is an error |
| `MockServer.CutWhole` | tests/integration/mock_servers/ider_server.py:733-744 | the pieces of a payload joined are the payload, and only an empty payload gives an empty piece |
| `MockServer.DataIsMessage` | tests/integration/mock_servers/ider_server.py:279-281 | a DATA_FROM_HOST frame of the mock is one complete message for the engine, with its number and its payload |
| `MockServer.PayloadRun` | tests/integration/mock_servers/ider_server.py:733-744 | a payload cut at any frame size, delivered in any chunks, reaches the handler piece by piece |
| `IderComposition.FramesRead` | tests/integration/mock_servers/ider_server.py:675-715 | the mock's reader accepts every run of consecutively numbered frames it knows, reports them one by one and answers the pings among them |
| `IderComposition.CommandIsMessage` | tests/integration/mock_servers/ider_server.py:168-176 | a COMMAND_WRITTEN frame of the mock is one complete message, with the CDB where the engine looks for it |
| `IderComposition.EndToEndRead` | tests/integration/mock_servers/ider_server.py:727-794 | a READ_10 issued by the mock gives it the image slice, reassembled, or else exactly what a truncated file still has of it and a medium error |
| `IderOpening.ReplyIsMessage` | tests/integration/mock_servers/ider_server.py:112-143 | the mock's OPEN_SESSION_REPLY is one complete message with its buffer sizes and protocol where the engine looks for them |
| `IderOpening.VerdictIsMessage` | tests/integration/mock_servers/ider_server.py:157-159 | the mock's STATUS_DATA is one complete message with its type and value |
| `IderOpening.Opening` | tests/integration/mock_servers/ider_server.py:640-665 | from a fresh, started engine the mock's opening, in any chunks, leads to an open session ready for commands, with the mock's buffer sizes and verdict and the two requests the mock waits for, if and only if the protocol is 0 and both buffers are at most 8192; otherwise the session is torn down |
| `IderOpening.FirstRead` | tests/integration/mock_servers/ider_server.py:640-794 | from a fresh engine through the opening to a READ that is heard as it should be |
| `IderComposition.EndToEndWrite` | tests/integration/mock_servers/ider_server.py:727-744 | a WRITE_10 issued by the mock, its payload sent at any frame size and delivered in any chunks, leaves exactly that slice on the image and one success response |
| `IderComposition.ImmutableIff` | plugins/module_utils/ider.py:219-233 | no inbound stream can change a file exactly when it is not (also) the file of a writable floppy, or that floppy was empty when it was opened |
| `AttachSafety.NextSafe` | plugins/module_utils/media_session.py:428-717 | every step of the attaching process, the daemon, a reader or a signal keeps the protocol's invariant |
| `AttachSafety.PathHoldsLatest` | plugins/module_utils/media_session.py:188-219 | in every interleaving, once the daemon has persisted, the path holds its latest record, whole |
| `AttachSafety.ReadersMoveForward` | plugins/module_utils/media_session.py:170-185 | successive reads never go backwards; a read that finds nothing or nothing that parses opened the path before the daemon's first write |
| `AttachReads.NextReadIff` | plugins/module_utils/media_session.py:170-185 | a poll finds no file exactly while the fallback has still to be created, the daemon has persisted nothing and no torn leftover is at the path; and a file that does not parse exactly if it opened the fallback record still being written, or that leftover |
| `AttachSafety.ChangedMeansAccepted` | plugins/modules/amt_media.py:568-761 | an attach is reported as changed only for a record the daemon wrote while the session was open and firmware's latest toggle verdict was acceptance |
| `AttachSafety.TerminalIsLast` | plugins/module_utils/media_session.py:549-717 | a terminal record is the daemon's last, a daemon that ends has written one, and attached is only ever written after acceptance |
| `AttachSafety.NoSecondFork` | plugins/modules/amt_media.py:568-640 | a live record that is not terminal is reported unchanged, whatever else happens, and nothing is forked; check mode forks nothing |
| `AttachSafety.TornReadAfterWrite` | plugins/module_utils/media_session.py:251-282 | a run in which a reader that opened the fallback file early gets bytes that do not parse although the daemon has already written |
| `Contention.NextOk` | plugins/modules/amt_media.py:568-609 | with any number of attaches for one session id and their daemons, every step keeps processes and files apart: nobody writes a file another one writes, a temporary file is never at the path and never read, and what is moved over the path is a whole record of its daemon |
| `SingleDaemon.OnlyDaemonIff` | plugins/modules/amt_media.py:568-609 | in every reachable state in which one daemon serves its session and an attach is about to begin: whatever happens as long as that session goes on, no other attach forks, exactly if the daemon's record is at the path, no other daemon can still replace it, and no other attach is past reading anything else |
| `SingleDaemon.SpawnedIsGuarded` | plugins/module_utils/media_session.py:428-481 | an attach that has spawned its daemon before any other began leaves its session so guarded, exactly unless a leftover that does not parse has kept the fallback record away and the daemon has reported nothing yet |
| `SingleDaemon.BothFork` | plugins/modules/amt_media.py:572-609 | a run in which two attaches that both read before either had forked end with two live daemons |
| `SingleDaemon.LiveRecordRemoved` | plugins/modules/amt_media.py:588-590 | a run in which an attach that had read the record of a dead session removes the live record another one's daemon has put in its place |
| `AttachRun.AttachedAfter` | plugins/module_utils/media_session.py:549-717 | whenever the next bytes open the session with the toggle accepted, there is a run in which the daemon writes attached and the attach is reported as changed |
| `AttachRun.MockIsAttached` | plugins/modules/amt_media.py:568-761 | against a mock with acceptable settings and an accepting verdict there is such a run |
| `MediaLink.Serve` | plugins/module_utils/media_session.py:611-714 | handshake, leftover and receive loop together, left at any turn for a stop request, a failed gate, the peer's close or the engine's end: the engine is as if fed, in one piece, the bytes behind the handshake received so far, and none is lost |
| `MediaLink.CutAnywhere` | plugins/module_utils/redirection.py:316-329 | however the same bytes are cut into segments, the handshake and what it leaves are the same |
| `Redirection.Socket.Recv` | plugins/module_utils/redirection.py:316-329 | at most the requested bytes, the stream is what was returned and what remains, and nothing is returned exactly when the peer has closed |
| `Redirection.RedirectionSession.Fill` | plugins/module_utils/redirection.py:316-329 | the stream of buffered and unread bytes is unchanged, and the buffer is long enough exactly when the stream is |
| `Redirection.RedirectionSession.ReadStartSessionReply` | plugins/module_utils/redirection.py:331-344 | takes exactly the reply and its OEM data off the stream, or fails as the stream says |
| `Redirection.RedirectionSession.ReadAuthReply` | plugins/module_utils/redirection.py:348-363 | takes exactly one reply with its declared data off the stream, or fails as the stream says |
| `Redirection.RedirectionSession.Authenticate` | plugins/module_utils/redirection.py:419-447 | what is sent, whether it fails and what is left of the stream are those of the handshake function |
| `Redirection.RedirectionSession.Connect` | plugins/module_utils/redirection.py:166-182 | for every segmentation, the requests sent, the failure, and leftover followed by unread bytes are functions of the stream alone |
| `Handshake.ConnectStable` | plugins/module_utils/redirection.py:166-182 | the handshake looks at no byte behind its last message, and a refusal is final |
| `Handshake.ReadFields` | plugins/module_utils/redirection.py:373-387 | the position loop over a challenge returns the fields, or fails when a length byte is missing |
| `Handshake.FieldsRoundTrip` | plugins/module_utils/redirection.py:116-120 | length-prefixed fields are read back as written, whatever follows |
| `Handshake.PrefixedIff` | plugins/module_utils/redirection.py:116-120 | a list of values can be written exactly when none is longer than 255 bytes |
| `Handshake.DeclaredLengths` | plugins/module_utils/redirection.py:365-417 | both requests declare exactly the length of their payload |
| `Handshake.AuthReplyRoundTrip` | tests/integration/mock_servers/ider_server.py:107-109 | the client reads a reply of the mock back field by field, and what follows it stays |
| `Handshake.AcceptsIff` | tests/integration/mock_servers/ider_server.py:629-638 | the mock accepts a response exactly for its own user name and a matching digest |
| `Handshake.Conversation` | tests/integration/mock_servers/ider_server.py:601-638 | against the mock the handshake succeeds exactly when type 4 is on offer, the user name fits its length byte and the mock accepts; each other case fails in its own way |
| `Handshake.SameCredentials` | tests/integration/mock_servers/ider_server.py:601-638 | a client configured with the mock's credentials always gets in, and the bytes behind the verdict are left untouched |
| `WsmanValues.ElementToValue` | plugins/module_utils/wsman.py:193-207 | the recursive loop fills the dictionary the conversion function describes |
| `WsmanValues.FieldsCollapse` | plugins/module_utils/wsman.py:193-207 | whatever siblings are interleaved, a key is absent, scalar or a list by how often its child occurs, in document order |
| `WsmanValues.RepeatedElement` | plugins/module_utils/message_log.py:696-711 | reading a repeated element back gives exactly the trimmed, non-blank texts of that tag in order, whatever the children; an occurrence that is not plain text is passed over |
| `WsmanValues.RoundTrip` | tests/integration/mock_servers/wsman_server.py:749-762 | rendering a list, collapsing it and reading it back is the identity exactly on lists of trimmed, non-blank strings |
| `Requests.Execute` | plugins/module_utils/wsman.py:472-537 | every attempt but the last failed transiently, no more attempts are made than allowed, and the last one and its response decide the result |
| `Requests.ChildIsFirst` | plugins/module_utils/wsman.py:585-593 | the body looked for is the first direct child of that name |
| `Requests.OneResult` | plugins/module_utils/wsman.py:472-537 | the attempts determine the number of requests sent |
| `Requests.MutationsAreNotRepeated` | plugins/module_utils/wsman.py:472-536 | a request that changes something goes out once and is handled at most once: surely if a reply came, whatever it says, and surely not if it failed before sending |
| `Requests.HandledMoreThanOnce` | plugins/module_utils/wsman.py:472-536 | a read that succeeds was handled once, and once more for each connection that broke after firmware had handled it |
| `Enumeration.WsmanServer.HandlePull` | tests/integration/mock_servers/wsman_server.py:2419-2437 | a page is taken off the context and the rest kept, or the context is released with the last page |
| `Enumeration.FindInPull` | plugins/module_utils/wsman.py:185-190 | a search of a pull response finds a reserved name inside the items before the server's own marker |
| `Enumeration.Enumerate` | plugins/module_utils/wsman.py:354-392 | the client's loop terminates with the result, and leaves the server with the contexts, that the composition function gives |
| `Enumeration.CollectIff` | plugins/module_utils/wsman.py:354-392 | for every list and page size the loop returns exactly the items exactly when no page holds an element it takes for a fault and no page but the last one it takes for the end or a foreign context |
| `Enumeration.WholeList` | plugins/module_utils/wsman.py:354-392 | items without the reserved names always arrive whole, in order, and the context is released |
| `Enumeration.LostItems` | plugins/module_utils/wsman.py:354-392 | an item with a property called EndOfSequence loses everything after its page |
| `LossyEnumeration.MadeIsExecuted` | plugins/module_utils/wsman.py:472-537 | the attempts at each request are those of the retry loop, and an answer was lost exactly when a connection broke after the server had handled one |
| `LossyEnumeration.PlainLoop` | plugins/module_utils/wsman.py:354-392 | over a network that answers everything the loop is the plain loop |
| `LossyEnumeration.WholeListIff` | plugins/module_utils/wsman.py:354-392 | with every request going through the retry loop, the whole list arrives exactly when the Enumerate was answered and no answer to a Pull was lost before one arrived: repeating a Pull skips a page; the server is left with the contexts of the Enumerates whose answers were lost, and with as many as there were if it never draws a context twice |
| `MessageLog.ReadRecords` | plugins/module_utils/message_log.py:714-870 | on any firmware the loop, stopped after any number of rounds, has ended with the result or stands in the state that the iteration function gives |
| `MessageLog.KeepRecords` | plugins/module_utils/message_log.py:832-839 | a batch adds its real records in order and counts its empty slots |
| `MessageLog.Conservation` | plugins/module_utils/message_log.py:796-859 | for every firmware and any number of rounds, real records and empty slots are together exactly what was taken, in order, and never more than max_records |
| `MessageLog.AnyFirmware` | plugins/module_utils/message_log.py:714-870 | records are the non-slots of all elements taken; truncated exactly for the reason max_records, complete exactly for the three clean ends |
| `MessageLog.OneOutcome` | plugins/module_utils/message_log.py:714-870 | a read that ends has one result |
| `MessageLog.ProgressHalts` | plugins/module_utils/message_log.py:796-859 | if no continuing batch is empty, the read ends within one round more than the remaining budget |
| `MessageLog.NeverEndsIff` | plugins/module_utils/message_log.py:796-859 | the read never ends exactly when, after some round and with budget left, every answer of firmware is an empty batch that promises more under a moved identifier |
| `MessageLog.AlternatingNeverEnds` | plugins/module_utils/message_log.py:845-859 | two identifiers in turn with empty batches keep the read going for ever, against its documentation |
| `MockLog.BatchArrives` | tests/integration/mock_servers/wsman_server.py:1449-1458 | the client reads a batch of the mock's document back as the mock served it |
| `MockLog.ReadExact` | tests/integration/mock_servers/wsman_server.py:1354-1458 | for every log, cap, batch size and budget: exactly the real records among the first max_records served, truncated exactly if the budget is smaller than what is served, in the exact number of round trips |
| `MockLog.WholeLog` | tests/integration/mock_servers/wsman_server.py:1354-1373 | a budget that covers the padded log returns every real record once and counts the padding |
| `Der.ReadTlv` | plugins/module_utils/tls.py:310-322 | fails exactly when the two header bytes are not both there, and otherwise advances by at least two |
| `Der.IterChildren` | plugins/module_utils/tls.py:325-331 | the loop terminates on all bytes and returns the children, or fails |
| `Der.ReadEncoded` | plugins/module_utils/tls.py:310-322 | an encoded value is read back wherever it stands, and the reader stops just behind it |
| `Der.RoundTrip` | plugins/module_utils/tls.py:325-331 | any list of values, each with a short or long definite length, is returned as encoded (section 8.1.3 of X.690) |
| `Der.WholeIff` | plugins/module_utils/tls.py:325-331 | bytes are read to their end without clipping exactly when they are an encoding, and then of the very children returned |
| `Der.NameOf` | plugins/module_utils/tls.py:360-370 | the two nested loops give the parsed name |
| `Der.NameRoundTrip` | plugins/module_utils/tls.py:360-370 | a written name is read back attribute by attribute, in order |
| `Der.CertificateRoundTrip` | plugins/module_utils/tls.py:373-402 | every certificate that can be written gives back its subject, its issuer and the end of its validity, with or without a version |
| `BootPlan.PlansAreDistinct` | plugins/module_utils/boot.py:138-161 | exactly the six targets have a plan, and no two plans are alike |
| `BootPlan.BuildPutProperties` | plugins/module_utils/boot.py:202-241 | the loops leave exactly the wanted properties: fixed ones, erased and zeroed ones only if read, none that is read-only, all others as read |
| `BootPlan.ListsAreApart` | plugins/module_utils/boot.py:80-96 | the deny list is firmware's read-only list, and no other list touches it |
| `BootPlan.OrderDoesNotMatter` | tests/integration/mock_servers/wsman_server.py:765-793 | in whatever order firmware renders its properties, the client reads the same instance |
| `BootArming.Firmware.Put` | tests/integration/mock_servers/wsman_server.py:2372-2386 | a Put merges its texts unless it is refused, which read-only fields cause when firmware is strict |
| `BootArming.Firmware.ChangeBootOrder` | tests/integration/mock_servers/wsman_server.py:1284-1303 | the named source, or none, becomes the boot order |
| `BootArming.Firmware.SetBootConfigRole` | tests/integration/mock_servers/wsman_server.py:1306-1331 | a role is recorded; one that is missing or not a number is refused and changes nothing |
| `BootArming.DiscoverAndValidate` | plugins/module_utils/boot.py:164-199 | the two enumerations give the verdict of the discovery function |
| `BootArming.DiscoveredIff` | plugins/module_utils/boot.py:164-199 | discovery passes exactly when firmware answers and offers exactly one capabilities instance with the target's field true and exactly one instance of the source it names |
| `BootArming.BodyHasNoReadOnlyField` | plugins/module_utils/boot.py:80-89 | no Put body carries a read-only field, whatever was read |
| `BootArming.ArmOneTimeBoot` | plugins/module_utils/boot.py:257-356 | on every path the firmware holds the effect of an exact prefix of the four mutations; none without a token, for an unknown target, when discovery or the first read fails, or in check mode |
| `BootArming.NeverBoth` | plugins/module_utils/boot.py:106-131 | from the first mutation on, at no point is IDE-R enabled together with a named source |
| `BootArming.PlannedSettings` | plugins/module_utils/boot.py:202-241 | after the Put, UseIDER, UseSOL, IDERBootDevice and BIOSSetup are the target's, and every fixed field has its value |
| `BootArming.UnrelatedIff` | plugins/module_utils/boot.py:202-241 | an unrelated setting keeps its value exactly when it is read-only, absent, or a single text without white space at its ends |
| `BootArming.ArmedState` | plugins/module_utils/boot.py:257-356 | after success: the one-shot role, the planned source, and a read-back that says so |
| `BootArming.ClearFirst` | plugins/module_utils/boot.py:310-330 | with the Put before the clearing, a machine whose order names a source would hold both |
| `Pseudonyms.TokenInjective` | tests/hardware/redact-evidence.py:384-396 | whatever the categories contain, a token names one category and one number |
| `Pseudonyms.Dense` | tests/hardware/redact-evidence.py:384-396 | in every category the tokens are numbered 1 to the count, in first-seen order |
| `Pseudonyms.Stable` | tests/hardware/redact-evidence.py:384-396 | a token once given never changes |
| `Pseudonyms.Injective` | tests/hardware/redact-evidence.py:384-396 | over a whole run two requests share a token exactly when they are the same value in the same category |
| `Pseudonyms.AtMostOccurrences` | tests/hardware/redact-evidence.py:378-396 | a category never has more distinct values than occurrences |
| `Redactor.Redactor.TokenFor` | tests/hardware/redact-evidence.py:384-396 | tokens, counts and occurrences stay what the requests so far say they are, and the token is the request's |
| `Redactor.Redactor.RedactText` | tests/hardware/redact-evidence.py:400-418 | the patterns are substituted one after the other, minting tokens in order |
| `Redactor.Redactor.RedactString` | tests/hardware/redact-evidence.py:461-479 | exempt keys, patterns, identifying keys: in this order, with the requests of each |
| `Redactor.Redactor.RedactValue` | tests/hardware/redact-evidence.py:438-483 | the recursive loops rebuild the tree the redaction function gives |
| `Redactor.Redactor.RedactEntries` | tests/hardware/redact-evidence.py:420-456 | the loop over a mapping, or over a census of property shapes |
| `Redactor.Redactor.RedactFile` | tests/hardware/redact-evidence.py:486-506 | a blank file is left alone, a JSON document rebuilt, and text that does not parse redacted as text |
| `Redactor.Redactor.RedactAll` | tests/hardware/redact-evidence.py:509-532 | the files are redacted one after the other with one set of tokens |
| `Redaction.KeepsShape` | tests/hardware/redact-evidence.py:438-483 | keys, their order, nesting, list lengths and non-text leaves survive, and requests are only added |
| `Redaction.WholeRun` | tests/hardware/redact-evidence.py:486-532 | over any number of files, each keeps its kind and shape, and what was requested in earlier ones stays requested |
| `Redaction.UnchangedIff` | tests/hardware/redact-evidence.py:461-479 | a text comes out as it was exactly if its key is exempt, or no pattern finds anything in it and, under an identifying key, it is empty or a token already |
| `Redaction.RunHides` | tests/hardware/redact-evidence.py:438-532 | in every document of a run, wherever in its tree, no text under an identifying key is left as it was, but for empty ones, tokens, and the shapes of a census |
| `Redaction.TokensRecognised` | tests/hardware/redact-evidence.py:257-268 | the token test recognises exactly the tokens whose category is a non-empty word of lower-case letters, digits and underscores |
| `Redaction.SecondPassIff` | tests/hardware/redact-evidence.py:461-479 | where the patterns are settled after one pass, a second one leaves a text alone exactly if its key does not identify, or the patterns found nothing in it, or it became a token as a whole |
| `Redaction.SecondPassRenames` | tests/hardware/redact-evidence.py:461-479 | a host name that contains an address beside other text is renamed by a second pass |
| `Redaction.OneTokenForever` | tests/hardware/redact-evidence.py:371-396 | the token a value has after any file is its token at the end, and nobody else's |

## Left out

- Canned SCSI tables (READ_TOC, GET_CONFIGURATION, GET_EVENT_STATUS, MODE_SENSE_10): one parameter gives their replies; they are constant lookups.
- Buffering inside the image's file object, `close`, and path and symlink checks: operating-system plumbing.
- Attaching a second image to a device slot in mid-session: a queued request names the slot, the source holds the image object, and they differ only then.
- Re-entrancy of `send` outside the read pump: the source's other sends are the last thing a handler does.
- IderReentry.PumpObeysLaw: the environment delivers READ and RESET_OCCURRED messages during a DATA_TO_HOST only, in finitely many batches; other messages do not touch the pump.
- Framing.Segmentation: the count of bytes received, which includes bytes behind the end of a session, depends on the chunks once a session has ended, as it does in the source.
- IderReentry.ReadObeysLaw: with a readbfr of 0 and reads whose data no frame can describe, only the single read is characterised (IderReads.ReadDelivers).
- IderComposition.EndToEndRead: as long as the mock's frame counter, which does not wrap, stays below 2^32; the engine's own counter wraps and is modelled so. For a readbfr of 0 the data must fit one frame.
- IderComposition.EndToEndWrite: within the same bound on both of the mock's counters.
- MediaSession: the daemon's loop is modelled on values, step by step, because its steps interleave with other processes; its state dictionary is reduced to the fields decisions are taken on.
- AttachSafety.ChangedMeansAccepted: assumes that writing the state file succeeds; a daemon that cannot write it dies, which is the signal event of the model.
- Contention.NextOk: the state a daemon reports follows the order of its reports, its engine and its images are those of MediaSession; an attach ends at its wait, and daemons alive at the same time have different process numbers.
- `_detach` and a removal of the state file that races a daemon outliving its timeout, which can create the file again.
- Fork, signals, process liveness and clocks: choices of the environment.
- TLS, certificate pins, socket timeouts while sending, and the digest algorithm: foreign code; digests are an open function.
- Handshake.Conversation: user name, realm and nonce are byte strings whose UTF-8 validity is an open predicate.
- Enumeration.Enumerate: the server runs one enumeration at a time; pages and contexts of others are not mixed in.
- LossyEnumeration.WholeListIff: items that name a context, which could be another one left on the server, are covered over a reliable connection only (Enumeration.CollectIff).
- Requests.Execute: namespaces other than that of the response's root, and evidence about the peer's certificate.
- MockServer.IderMockServer.ReaderLoop: a frame that has begun to arrive is counted when it is complete; the mock's counter overflows instead of reaching 2^32.
- MockLog.ReadExact: records are non-blank and have no white space at their ends, as base64 has; the numbers of a reply are numbers, not decimal texts.
- Decoded fields of an event record beyond its bytes, certificate times and attribute names: table lookups.
- Der.CertificateRoundTrip: lengths up to 2^32, written in one, two or four length bytes; Der.RoundTrip covers every form.
- BootArming.ArmOneTimeBoot: the receipt's copy of the Put properties is the ghost body; selectors of the fixed instances are not modelled.
- Redaction.KeepsShape: keys of a mapping are text, as JSON makes them; patterns are given as the passages they keep and replace.
- Redaction.SecondPassIff: that the patterns find nothing more in what they have rewritten is a condition on the regular expressions, which are not part of this model.
- Redaction.RunHides: which values the patterns themselves find is a matter of the same expressions.
- XML text, SOAP headers, JSON and UTF-8 encoding: element trees and byte strings are modelled directly.
- Hardware, power, redirection-state and log-clearing modules, models and facts: lookups and coercions that would add easy members.
