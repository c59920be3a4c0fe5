# A verified model of the agent API's protocols

The agent API is the public REST and event-stream entry of an agent platform. This Dafny project models
the parts of it whose correctness spans several functions or goroutines, and proves what they keep.
`dafny verify dfyconfig.toml` checks all of it.

## What is modelled

**Event streams.** `StreamProtocol` is the handler and its producer goroutine as a machine of labelled
steps: a `select` with several ready cases is several enabled steps, timers may fire at any time, writes
may fail, the client may leave and the server may stop whenever they like. `StreamInvariants` holds what
every step keeps and `StreamTheorems` what follows for every run: conservation of events, delivery of a
prefix, completeness exactly when the first select took the admission, one join, no deadlock, bounded
runs, an end of its own when the client leaves or the server stops, one terminal frame. `StreamEndings`
says which answer of Control leads to which outcome, how each stream is closed, and what a 200 that ends
without an event tells the client. `StreamLimiter` is the cap with its counters as
an object, and `StreamSystem` runs any number of handlers against one limiter and one shutdown signal.

**The wire and the reader.** `Sequences` are the canonical cursors, `Frames` the bytes of every frame the
handler writes, `EventSource` the event stream interpretation of the WHATWG HTML standard
(section 9.2.6) byte by byte. `Resumption` composes machine, bytes and reader over any number of
connections: the client dispatches a gapless, duplicate-free stretch of Control's log however each
connection ended and wherever its bytes were cut. `NativeResumption` does so for a native EventSource, which
resumes from the standard's last event ID.

**Commands.** `JsonGrammar` gives documents as trees, their tokens with all commas and colons (RFC 8259,
sections 2, 4 and 5) and a parser as a function; `JsonDecoder` is the mutable token cursor with the
tokeniser's states and the recursive decoding loops, proved equal to it. `JsonNumbers` and `JsonStrings` are
the texts of literals, each with the grammar of section 6 or 7 beside the reader, `JsonText` the texts of
tokens in any spelling and spacing, `CanonicalJson` the sorted form, and `CommandDigest` joins them: text to
value to canonical text to digest.

**Trust.** `Material` is the parsing of the mounted files, `Reloader` the polled object that publishes a
material whole or not at all, `ConnTracker` the two-level index of connections as mutable objects, and
`TrustRotation` the machine in which handshakes, closes, publications and prunes interleave.

**Smaller parts.** `Readiness` is the cached health answer, as an object and over runs of concurrent
checks; `JsonPointer` the pointer of a body location (RFC 6901, sections 3 and 4); `WorkloadIdentity` the
parser and printer of workload identities.

Where a part changes state step by step the model does too: each class's methods are proved equal to a
function on values (`Acquired`, `Polled`, `Pruned`, `Consulted`, `ParseValue`), and the machines step by
those same functions.

## Where code and promise differ

The model follows the code. These are proved, with the exact condition where there is one.

- `internal/transport/http/sse.go:136-139` promises that a 200 which ends without an event means a terminal
  operation. Two other runs end so. When `admitted` and `done` are both ready the first select may take `done`
  (line 143) and answer 200 without reading the channel (line 188):
  `StreamTheorems.AdmittedStreamCanEndWithoutItsEvents` gives such a run for every number of events the
  channel can hold. And when the grace timer and the channel are both ready for the first event, emit's select
  may take the timer (line 123), and no end frame is written for a slow consumer (line 220):
  `StreamEndings.SlowConsumerIsSilent`. `ThreeSilences` says there is no fourth way, and
  `SilenceMeansTerminal` exactly when the promise holds. `StreamTheorems.CompleteDelivery` is about the
  channel alone: everything put in it is delivered exactly on the runs that took `admitted`, or put nothing.
- `internal/transport/http/sse.go:36-37` lets `after` win over `Last-Event-ID`. A client that keeps one URL
  naming `after` therefore gets what it already has again, exactly when the connection delivered
  something: `Resumption.FixedAfterRepeats`.
- `internal/transport/http/sse.go:174-176` relies on the reconnect of EventSource. A reader of the standard
  starts each connection with an empty last event ID buffer, so after any cut its last event ID names the
  client's place exactly when no whole frame arrived, an event did, or the client had seeded the buffer:
  `Resumption.LastIdKeepsThePlace`. A native EventSource is therefore gapless and free of duplicates exactly
  when it dispatched nothing after a connection that made it forget its place:
  `NativeResumption.NativeSessionIsGapless`. `Resumption.ExactlyOnce` holds whatever the buffer started with,
  for clients that resume from the last operation event they dispatched.
- `internal/transport/http/server.go:337-338` promises the rejection of non-finite numbers. NaN and
  Infinity are refused (`CommandDigest.NonFiniteIsRefused`, `AcceptedNumbers`). A decimal beyond every
  float is not: numbers are kept as literals, so `1e999` is accepted (`HugeNumberIsAccepted`), as is
  exactly every number of the grammar (`NumberIsAccepted`).
- `internal/transport/identity/material.go:34` says equal digests mean that nothing changed. Two sets
  of files with NUL bytes can share a digest (`Material.DigestCollides`); exactly files without NUL bytes
  share theirs with no others (`Material.DigestIsUnique`).
- `internal/transport/identity/material.go:115-116` says that a poll which sees unchanged bytes does nothing.
  The poll reads the files twice (`internal/transport/identity/reloader.go:110-120`), and one whose second
  read finds the old bytes again publishes the material in force once more: `Reloader.TornReadsRepublish`,
  and `RepublishesExactly` for exactly which reads.
- `internal/transport/identity/credentials.go:103-104` closes the connections a retired CA had verified. A
  handshake that took its material before the publication and registers after the prune stays open until the
  next one, whether it verified its peer before the publication (`TrustRotation.HandshakeOutlivesAReload`) or
  only after the prune (`StalledHandshakeOutlivesAReload`). Only such connections do, and those the server is
  closing at that moment (`OnlyStaleHandshakesOutlive`, `OnlyHandshakesOutlive`).
- `internal/bootstrap/readiness.go:13-15` withdraws readiness the moment the shutdown begins. A check that
  waits for the mutex at that moment can still answer that all is well (`Readiness.ReadyAfterStop`), and
  only such a check can (`OnlyWaitersAnswer`).
- `internal/transport/identity/spiffe.go:44-46` promises the exact path and no query. The path compared is
  the percent-decoded one and a bare trailing `?` is not looked at; `WorkloadIdentity.Shows` lists the
  parts that are, and `UnreadPartsAreAccepted` that the others do not matter.

## Model

| member | source | states |
|---|---|---|
| StreamInvariants.InvStep | internal/transport/http/sse.go:106-241 | every step of handler, producer, client or server keeps conservation, the channel bound, the done/admitted handshake, the answer given and the order of writes |
| StreamInvariants.InvReachable | internal/transport/http/sse.go:106-241 | that invariant holds in every reachable state, whether or not the server was stopping at the start |
| StreamTheorems.Conservation | internal/transport/http/sse.go:107-127 | each event Control sent is in exactly one place (on the wire, in the handler's hand, in the channel, in the producer's hand, or the one dropped), in order, and the channel is within its bound |
| StreamTheorems.DeliveryIsAPrefix | internal/transport/http/sse.go:192-213 | whatever interleaves, the events written are the first ones of Control's log after the cursor |
| StreamTheorems.CompleteDelivery | internal/transport/http/sse.go:202-228 | a handler that received the end with no failed write delivered every frame of the channel if and only if its first select took the admission or there was none; otherwise it delivered none and at most FrameBuffer were lost; after a clean end the channel got everything Control sent |
| StreamTheorems.AdmittedStreamCanEndWithoutItsEvents | internal/transport/http/sse.go:141-188 | for every configuration and every n up to FrameBuffer a run in which the first select prefers done: admitted, n events received, cleanly ended, 200, and none of the n is ever written |
| StreamTheorems.DrainIsBounded | internal/transport/http/sse.go:202-228 | after done is received at most the buffered frames and one terminal frame are tried, so at most FrameBuffer plus one |
| StreamTheorems.JoinedExactlyOnce | internal/transport/http/sse.go:106-134 | on every run admitted is closed at most once and done is sent at most once without blocking; a handler that returned has received it exactly once, after the producer ended |
| StreamTheorems.NoDeadlock | internal/transport/http/sse.go:129-241 | until the handler has returned some step of the stream's own is enabled, except exactly while Control has not answered and nobody gave up; when it has returned the producer has ended |
| StreamTheorems.RunsAreBounded | internal/transport/http/sse.go:192-241 | a run has at most four steps per event after the cursor plus 17, and heartbeats |
| StreamTheorems.LeavingIsFinite | internal/transport/http/sse.go:129-134 | once the handler is on its way out it stays so and no heartbeat can delay its end |
| StreamTheorems.EndsByItself | internal/transport/http/sse.go:129-241 | from every reachable state in which the client has left or the server stops, the stream has a run of bounded length to the handler's return with the producer joined, in which Control, client and operator do nothing |
| StreamTheorems.BeginsOnlyWhenAccepted | internal/transport/http/sse.go:136-161 | a 200 begins only on an admission, a required reset or a clean end; without it no stream byte is written; a refusal before admission is never a 200 |
| StreamEndings.ThreeSilences | internal/transport/http/sse.go:136-228 | a 200 that arrives whole, without an event and without an end or reset frame, comes about in exactly three ways: Control ended the stream and had sent nothing, the first select took done and lost up to FrameBuffer events, or the first event found a slow consumer |
| StreamEndings.SilenceMeansTerminal | internal/transport/http/sse.go:136-139 | such a 200 means that Control ended the stream with nothing sent if and only if no consumer was slow and the first select took the admission or nothing had been put in the channel |
| StreamEndings.LostEventsAreSilent | internal/transport/http/sse.go:141-188 | for every configuration and every n from 1 to FrameBuffer such a 200 hides n events |
| StreamEndings.SlowConsumerIsSilent | internal/transport/http/sse.go:118-125 | for every configuration with an event left, a run in which the grace timer takes the first event of an admitted stream and the 200 ends like that of a terminal operation |
| StreamTheorems.TerminalFrameIsLast | internal/transport/http/sse.go:174-237 | the retry preamble comes first and once, an end or reset frame is the last write, no event precedes admission, no event accompanies a reset |
| StreamEndings.TerminalFramesAreEarned | internal/transport/http/sse.go:215-237 | on every run an end frame means that Control failed, or, when the handler left before the stream ended, that the server stops; a reset frame means that Control asked for that reset; a clean end and a slow consumer leave neither; a refusal without an outcome is the shutdown's, and only a client that left has no answer |
| StreamEndings.EndingsAreTold | internal/transport/http/sse.go:180-237 | a client that stayed and got everything sees the end frame last if and only if Control failed or the handler left before the stream ended, and the reset frame with its payload last if and only if Control asked for that reset |
| StreamEndings.ResetIsTold | internal/transport/http/sse.go:180-188 | for every reset Control can ask for, a run that writes the retry preamble and that reset frame |
| StreamEndings.OutcomesHaveTheirCause | internal/adapters/control/client.go:275-330 | over any run the outcome is a failure if and only if a call failed or an event had no encoding, a clean end if and only if the stream ended, a reset if and only if the list asked for it, a slow consumer if and only if the grace timer fired, and a cancellation if and only if emit saw the context end |
| StreamEndings.RefusedCallIsAnError | internal/adapters/control/client.go:278-302 | a call that fails before the admission never begins a 200, writes no stream byte, and is answered with that failure when the handler reads the outcome |
| StreamLimiter.HeldAfter | internal/transport/http/sse.go:327-344 | acquire and release move one subject's count by one and nobody else's, and keep no zero entries |
| StreamLimiter.ReleaseUndoesAcquire | internal/transport/http/sse.go:333-343 | release gives back the counters acquire found, deleted entry included |
| StreamLimiter.ReleasesCommute | internal/transport/http/sse.go:335-343 | the order in which held slots are released does not matter |
| StreamLimiter.Limiter.Acquire | internal/transport/http/sse.go:327-335 | succeeds exactly when the process and the subject have room, a cap of zero meaning unbounded, and then counts one slot |
| StreamLimiter.Limiter.Release | internal/transport/http/sse.go:335-343 | counts one slot less for the process and the subject and drops an entry that reaches zero |
| StreamSystem.CapsHold | internal/transport/http/sse.go:99-134 | over any run of any number of handlers: live producers are among the held slots, the limiter counts exactly those, for the process and each subject, and never above the caps |
| StreamSystem.AdmitsBelowTheCaps | internal/transport/http/sse.go:327-335 | over any run a stream that arrives gets a slot if and only if the held slots are below the process cap and its subject's below the subject's, a cap of zero or less being none |
| StreamSystem.SlotsComeBack | internal/transport/http/sse.go:104-134 | when all handlers have returned the limiter is as it was at the start and no producer runs |
| StreamSystem.StopReachesEveryStream | internal/transport/http/server.go:215-218 | after Stop, called once or more, every stream open or yet to come sees the signal |
| Sequences.SequencesAreNaturals | internal/transport/http/sse.go:23-34 | the accepted cursors are exactly the numerals of the naturals below 10^20; printing and reading undo each other |
| Sequences.CursorOrder | internal/transport/http/sse.go:23-34 | numeric order of cursors is order by length and then by byte |
| Sequences.ReconnectCursor | internal/transport/http/sse.go:36-57 | a reconnect's cursor is a canonical numeral that names the number of the last event id exactly when the URL's after is absent or that id, and it is refused exactly when after is no numeral below 10^20 |
| Sequences.BoundCursor | internal/transport/http/sse.go:45-57 | after is named if and only if it is present and no numeral below 10^20, Last-Event-ID if and only if after is fine and the header is not; otherwise after is bound, or the header when there is none |
| EventSource.ReadChunk | internal/transport/http/sse.go:245-293 | the bytes of each kind of frame, read by the standard, dispatch just that event with its id, type and data, or nothing for retry and heartbeat |
| Frames.ClosingBytes | internal/transport/http/sse.go:61-64 | the bytes of the keepalive, retry, end and reset frames, spelled out |
| Frames.EventBytes | internal/transport/http/sse.go:261-276 | the bytes of an operation event: its id, event and data lines and a blank one |
| EventSource.CutLines | internal/transport/http/sse.go:163-173 | a frame cut anywhere before its last byte dispatches nothing and moves no cursor |
| EventSource.ReadPrefix | internal/transport/http/sse.go:163-213 | any byte prefix of a stream dispatches exactly its whole frames |
| EventSource.ChunksToldInOrder | internal/transport/http/sse.go:245-293 | the operation events are dispatched in order; retry, heartbeat, reset and end frames never move the id past the last of them |
| Resumption.OneConnection | internal/transport/http/sse.go:66-78 | however one connection ended, wherever its bytes were cut and whatever the last event ID buffer started with, the client dispatched the next n events of the log, and the last one's id names that place |
| Resumption.ExactlyOnce | internal/transport/http/sse.go:66-78 | over any number of connections, each opened with the id of the last operation event dispatched and with any last event ID buffer, the dispatched operation events are a gapless, duplicate-free stretch of the log starting behind the first cursor, and the cursor names its end |
| Resumption.LastIdKeepsThePlace | internal/transport/http/sse.go:174-189 | after any byte prefix the standard's last event ID names the last operation event dispatched if and only if no whole frame arrived, an event did, or the buffer was seeded with the cursor |
| NativeResumption.NativeSessionIsGapless | internal/transport/http/sse.go:174-189 | over any number of connections, each with an empty buffer and opened with the standard's last event ID, what a native EventSource dispatched is a gapless, duplicate-free stretch of the log behind its first cursor if and only if it dispatched nothing after a connection that was opened behind an event and brought the preamble but no event |
| Resumption.FixedAfterRepeats | internal/transport/http/sse.go:53-56 | a fixed URL resumes behind what was delivered exactly when it names no after or nothing was delivered |
| JsonGrammar.ParseWritten | internal/transport/http/server.go:352-395 | the tokens of any document, whatever follows them, are parsed to its meaning if no object repeats a name and refused as a duplicate otherwise |
| JsonGrammar.ParsedWasWritten | internal/transport/http/server.go:352-395 | whatever is parsed was the tokens of a document without repeated names that means the result |
| JsonGrammar.DecodesTheGrammar | internal/transport/http/server.go:339-350 | accepted with value v if and only if the tokens are one document that repeats no name at any depth and means v |
| JsonGrammar.TrailingDataIsADocumentAndMore | internal/transport/http/server.go:346-348 | refused for trailing data if and only if an acceptable document is followed by more |
| JsonGrammar.RepeatedNameIsRefused | internal/transport/http/server.go:367-370 | a document that repeats a name at any depth is refused as such, whatever follows it |
| JsonGrammar.UniqueNames | internal/transport/http/server.go:361-376 | repeating no name means distinct names in the object and in every value |
| JsonDecoder.Decoder.Pass | internal/transport/http/server.go:353-356 | one pass of the token loop: the token that may stand in the decoder's state, a syntax error, or a separator read over |
| JsonDecoder.Decoder.NextToken | internal/transport/http/server.go:353-356 | the token behind the separator the decoder's state expects, with the state and nesting it leads to, or an error |
| JsonDecoder.Decoder.AtEnd | internal/transport/http/server.go:346-348 | true exactly when no token is left |
| JsonDecoder.Decoder.DecodeValue | internal/transport/http/server.go:352-395 | reads exactly the next value of the specification, leaves the cursor behind it, or reports the specification's refusal |
| JsonDecoder.Decoder.DecodeMembers | internal/transport/http/server.go:360-378 | the loop over an object's members computes the specification's members and refuses a repeated name |
| JsonDecoder.Decoder.DecodeItems | internal/transport/http/server.go:379-389 | the loop over an array's items computes the specification's items in order |
| JsonDecoder.StrictDecode | internal/transport/http/server.go:339-350 | the cursor-based decoder equals the grammar's decoding on every token sequence, errors included |
| CanonicalJson.CanonicalMeans | internal/application/principal.go:47-56 | every value has a canonical document that means it, repeats no name and is sorted at every depth |
| CanonicalJson.CanonicalAscends | internal/application/principal.go:47-51 | in the canonical document of any value, in every object at any depth, each name is a proper prefix of the next or has the smaller character where they first differ |
| CanonicalJson.SortedIsCanonical | internal/application/principal.go:47-49 | it is the only such document: any sorted one is the canonical one of its meaning |
| CanonicalJson.MemberOrderIsNothing | internal/application/principal.go:47-49 | objects with the same pairs of name and value, in any order, mean the same value |
| CanonicalJson.OrderIsNothing | internal/application/principal.go:47-49 | two documents that repeat no name mean one value if and only if one is the other with the members of its objects, at any depth, in another order |
| CanonicalJson.CanonicalRoundTrip | internal/application/principal.go:47-56 | decoding the canonical tokens of any value gives the value back |
| JsonStrings.StringsOfTheGrammar | internal/transport/http/server.go:340-341 | a text is read as a string if and only if it is pieces of section 7 (characters, short escapes, four hexadecimal digits) up to the closing quote that stand for it, surrogate pairs joined and lone surrogates replaced |
| JsonStrings.ShortEscapes | internal/transport/http/server.go:340-341 | the eight short escapes of section 7 stand for their characters, and no other letter is one |
| JsonStrings.HexadecimalDigits | internal/transport/http/server.go:340-341 | the values of hexadecimal digits in both cases, and no others |
| JsonStrings.PairsAreUtf16 | internal/transport/http/server.go:340-341 | a surrogate pair stands for the character whose UTF-16 form it is, and a lone surrogate for U+FFFD |
| JsonStrings.EscapedTexts | internal/application/principal.go:51-51 | what the printer writes for quotes, backslashes, control characters, the three of HTML and the two line separators, and that it writes every other character as it is |
| JsonStrings.QuotedBack | internal/application/principal.go:51-51 | every string, with the printer's escapes, reads back as itself |
| JsonText.LexSpaced | internal/transport/http/server.go:340-346 | tokens spelled in any way, strings with any escapes, and with any whitespace between them are read back as those tokens |
| JsonText.LexedWasSpaced | internal/transport/http/server.go:340-346 | every text read without an error is some spelling of its tokens with some whitespace |
| JsonText.SpacesAreFour | internal/transport/http/server.go:340-346 | space, tab, line feed and carriage return are read over before any text, and any other character that starts no token ends the reading |
| JsonNumbers.NumbersOfTheGrammar | internal/transport/http/server.go:341-341 | a text is read as one number if and only if it is a sign, an integer part, a fraction and an exponent of section 6 |
| JsonNumbers.NumberReadIsNumber | internal/transport/http/server.go:341-341 | the literal kept for a number is a number of RFC 8259 section 6 |
| CommandDigest.TextsOfADocument | internal/transport/http/server.go:340-346 | the texts read as a document's tokens are exactly its spellings with any whitespace and any escapes |
| CommandDigest.AcceptedBodies | internal/transport/http/server.go:304-308 | a body is accepted as v if and only if it is a text of a document that repeats no name and means v |
| CommandDigest.SpelledDocumentIsAccepted | internal/transport/http/server.go:304-308 | any text of a document is accepted as what it means, or refused for a duplicate member exactly if some object repeats a name |
| CommandDigest.MarshalRoundTrip | internal/application/principal.go:50-56 | the canonical text of an accepted body's value is accepted as that value |
| CommandDigest.MarshalIsCompact | internal/application/principal.go:47-51 | the canonical text is the texts of its tokens one after the other, with no space but inside strings and nowhere a control character or a raw less-than, greater-than, ampersand or line separator |
| CommandDigest.DigestIdentifiesTheCommand | internal/application/principal.go:47-56 | with a hash that does not collide, two accepted bodies share a digest if and only if they decode to one value |
| CommandDigest.FormattingIsNothing | internal/application/principal.go:47-49 | any two texts of documents without repeated names, whatever their whitespace and escapes, have one canonical text if and only if the documents differ only in the order of members, in whatever object |
| CommandDigest.NumberIsAccepted | internal/transport/http/server.go:337-341 | a body is accepted as the number literal it spells if and only if that is a number of RFC 8259 section 6, whatever its size |
| CommandDigest.HugeNumberIsAccepted | internal/transport/http/server.go:337-341 | the body 1e999 is accepted and kept as its literal |
| CommandDigest.NonFiniteIsRefused | internal/transport/http/server.go:337-341 | a body that starts with NaN, Infinity or -Infinity is refused as malformed |
| CommandDigest.AcceptedNumbers | internal/transport/http/server.go:337-341 | every number of an accepted body, at any depth, is a literal of RFC 8259 section 6 |
| Material.DigestIsInjective | internal/transport/identity/material.go:105-111 | equal digest inputs mean equal files, for files without NUL bytes |
| Material.DigestIsUnique | internal/transport/identity/material.go:105-111 | files share their digest input with no others if and only if none of them holds a NUL byte |
| Material.DigestCollides | internal/transport/identity/material.go:105-111 | different files with NUL bytes that share a digest input |
| Material.BundleIsExact | internal/transport/identity/material.go:80-104 | the roots and the pool are exactly the bundle's certificates, each under its own fingerprint, and empty exactly when it has none |
| Material.AcceptedWhole | internal/transport/identity/material.go:66-113 | accepted if and only if the key matches, the leaf is valid now, every certificate of the bundle is a CA and there is one; the result holds exactly those roots and the digest of exactly these bytes |
| Material.TrustedAreTheBundle | internal/transport/identity/material.go:38-45 | a root is trusted if and only if its bytes are a certificate block of the accepted bundle |
| Material.Parse | internal/transport/identity/material.go:66-113 | the loop that fills pool and roots block by block computes that, with the first defect met |
| Material.FilesDigest | internal/transport/identity/material.go:115-130 | hashes the three files in order or fails when one cannot be read |
| Material.Load | internal/transport/identity/material.go:47-64 | parses the three files or fails when one cannot be read |
| Reloader.Reloader.Reload | internal/transport/identity/reloader.go:106-136 | publishes the loaded material, clears the failures and calls every callback with the pair, or counts a rejection, or leaves everything as it is, whatever the two reads saw |
| Reloader.PollDoes | internal/transport/identity/reloader.go:106-136 | a poll publishes what it loaded, clears the failures and calls every callback with the pair if and only if the probe is readable, saw another digest and the load is acceptable; it counts one failure if and only if the probe is unreadable, or saw another digest and the load is not acceptable; otherwise it changes nothing |
| Reloader.RotationArrives | internal/transport/identity/reloader.go:106-136 | over any run of polls that loaded files without NUL bytes, a poll that twice reads one acceptable version of such files leaves that version in force |
| Reloader.Create | internal/transport/identity/reloader.go:35-54 | a reloader exists exactly when the first material is valid, with no failure and no callback |
| Reloader.RetiredRoots | internal/transport/identity/reloader.go:138-158 | lists each root the reload dropped once, and only those, and counts them |
| Reloader.InForceWasReadWhole | internal/transport/identity/reloader.go:106-136 | over any run the material in force is the last published one, and each published one was accepted whole from the bytes of one read and carries their digest |
| Reloader.FailuresCountRejections | internal/transport/identity/reloader.go:26-28 | over any run the failure count is the number of polls rejected behind the last one that published, added to the starting count when none did |
| Reloader.CallbacksSeeTheChain | internal/transport/identity/reloader.go:126-133 | a registered callback sees every pair of the chain of materials, in order and without a gap |
| Reloader.RootsAreKeptOrRetired | internal/transport/identity/reloader.go:149-158 | a root of any material of a chain is in the last one or retired by one of the chain's pairs |
| Reloader.CallbacksHearOfEveryRoot | internal/transport/identity/reloader.go:126-133 | over any run every root trusted at any time is trusted now, or each registered callback was called with a pair of materials that retires it |
| Reloader.TornReadsRepublish | internal/transport/identity/reloader.go:108-133 | a poll whose probe reads other bytes and whose load reads the old ones again publishes the material in force and calls every callback with it as previous and current |
| Reloader.RepublishesExactly | internal/transport/identity/reloader.go:108-133 | for files without NUL bytes a poll publishes what is in force already if and only if its probe read other files, its load read the ones in force, and they are still acceptable |
| ConnTracker.AddTracks | internal/transport/identity/credentials.go:38-49 | adding tracks that connection under its root and changes nothing else |
| ConnTracker.RemoveUntracks | internal/transport/identity/credentials.go:51-61 | removing untracks that connection and no other, and does nothing when it is not tracked |
| ConnTracker.PruneKeepsTrusted | internal/transport/identity/credentials.go:63-79 | pruning keeps exactly the connections under trusted roots and retires exactly the others |
| ConnTracker.TidyKept | internal/transport/identity/credentials.go:38-79 | no operation leaves an empty bucket or puts a connection in two |
| ConnTracker.Tracker.Add | internal/transport/identity/credentials.go:38-49 | the map of maps after add |
| ConnTracker.Tracker.Remove | internal/transport/identity/credentials.go:51-61 | the map of maps after remove, an emptied bucket deleted |
| ConnTracker.Tracker.CloseRetired | internal/transport/identity/credentials.go:63-79 | closes exactly the tracked connections under roots the material does not hold, drops their buckets and returns their number |
| ConnTracker.TrackedConn.Close | internal/transport/identity/credentials.go:81-92 | closes the connection and untracks it the first time only |
| TrustRotation.TrackerAgrees | internal/transport/identity/credentials.go:89-142 | over any run of handshakes in their three steps, publications, prunes and closes in their two, the tracked connections are exactly the open ones handed out that the server has not begun to close, each in the bucket of its root alone, no bucket is empty, and between reloads one under an untrusted root was registered after the last prune and took its material before the last publication |
| TrustRotation.PruneClosesTheRetired | internal/transport/identity/credentials.go:105-113 | the prune of a publication closes exactly the connections tracked then under roots the new material lacks, and keeps exactly the others |
| TrustRotation.LateCloseIsHarmless | internal/transport/identity/credentials.go:89-92 | the server's later close of a pruned connection changes neither the index nor another connection, even when its root is trusted again |
| TrustRotation.CloseUntracksOne | internal/transport/identity/credentials.go:89-92 | closing a connection first untracks it and then closes it, and leaves every other one tracked and open |
| TrustRotation.OnlyHandshakesOutlive | internal/transport/identity/credentials.go:103-113 | a connection under a root that is no longer trusted is open after the prune if and only if its handshake had verified the peer and was not registered yet, or the server had begun to close it |
| TrustRotation.OnlyStaleHandshakesOutlive | internal/transport/identity/credentials.go:103-142 | between reloads a connection handed out under an untrusted root, and a handshake verified against one, took its material before the last publication; of those handed out and not being closed exactly the ones registered after the last prune are open |
| TrustRotation.HandshakeOutlivesAReload | internal/transport/identity/credentials.go:115-142 | for any two materials and a root only the old one holds, a run that verifies the peer before the publication and leaves the connection open and tracked under that root after the prune |
| TrustRotation.StalledHandshakeOutlivesAReload | internal/transport/identity/credentials.go:115-142 | such a run in which the handshake takes the old material and verifies its peer only after the prune |
| Readiness.Readiness.Check | internal/bootstrap/readiness.go:33-47 | answers stopping exactly after Stop and then touches nothing; otherwise calls health exactly when nothing is cached, and answers what the cache then holds |
| Readiness.Readiness.Stop | internal/bootstrap/readiness.go:31-31 | withdraws readiness and leaves the cache |
| Readiness.CallsAreSpaced | internal/bootstrap/readiness.go:37-46 | over any run of concurrent checks each health call starts at least cacheFor after every earlier one completed |
| Readiness.CallsAreRare | internal/bootstrap/readiness.go:13-15 | a window of length w holds at most w / cacheFor + 1 call starts |
| Readiness.ChecksAnswer | internal/bootstrap/readiness.go:37-46 | over any run a check that gets the mutex answers the last call's health while that is younger than cacheFor, and otherwise calls health and answers what it says |
| Readiness.ReadyIsBacked | internal/bootstrap/readiness.go:37-46 | a nil answer rests on a success of this check's own call or of one completed less than cacheFor before |
| Readiness.StoppedChecksSaySo | internal/bootstrap/readiness.go:33-36 | a check begun after stop has its answer, stopping, and never another |
| Readiness.OnlyWaitersAnswer | internal/bootstrap/readiness.go:31-38 | a reply given after stop is not stopping if and only if its check was waiting for the mutex when stop was called |
| Readiness.ReadyAfterStop | internal/bootstrap/readiness.go:31-46 | a run in which such a check answers nil any time after stop |
| JsonPointer.Build | internal/transport/http/validation.go:97-104 | the loop over the builder writes the pointer of the whole path |
| JsonPointer.PointerRoundTrip | internal/transport/http/validation.go:93-104 | splitting a pointer at its slashes and unescaping ~1 and then ~0 gives its path back, whatever the segments hold |
| JsonPointer.PointerIsInjective | internal/transport/http/validation.go:93-104 | different paths have different pointers |
| WorkloadIdentity.TrustDomainsAreLabels | internal/transport/identity/spiffe.go:36-42 | the trust domains are exactly the dot-separated sequences of labels |
| WorkloadIdentity.LabelsOfThePattern | internal/transport/identity/spiffe.go:36-39 | a label is one lower-case letter or digit, or two of them around up to 61 letters, digits and hyphens |
| WorkloadIdentity.AcceptedIsPrinted | internal/transport/identity/spiffe.go:44-62 | a URL is accepted as p if and only if p is valid and the parts that are read are exactly p's printed parts |
| WorkloadIdentity.UnreadPartsAreAccepted | internal/transport/identity/spiffe.go:44-62 | every valid principal's URL is accepted with any escaping of the path and with a bare trailing question mark |
| WorkloadIdentity.PrintedIsInjective | internal/transport/identity/spiffe.go:25-27 | two valid principals with one text are equal |
| WorkloadIdentity.PeerIsTheOneUri | internal/transport/identity/spiffe.go:64-75 | a certificate speaks for p if and only if it has exactly one URI name and that one shows a valid p |

## Left out

- ExactlyOnce: is about clients that resume from the last operation event they dispatched; `NativeSessionIsGapless` is the exact statement for those that resume from the standard's last event ID, and `FixedAfterRepeats` for those that keep one URL.
- ThreeSilences: takes the handler's end and reset frames to have an encoding, as their two-string documents always have.
- ReadChunk: is about the frames of the service's own shapes (one-line types, one-line data without a leading space), because the frame encoder's escaping is a library's.
- The refusals before a slot is acquired (a malformed cursor reported by its parameter, GetOperation's errors) end the request without touching the stream; only `BindCursor` is modelled.
- MapError, the error envelope, HTTP status tables, field-by-field mapping of contract types, handlers, other adapters, configuration rules and wiring: finite tables and range checks. Of the configuration only the bound FrameBuffer >= 1 (internal/config/config.go:354) is used.
- The frame encoder of gin-contrib/sse: its escaping of line breaks in ids and types is not modelled; events have one-line types and data without a leading space, types other than end and reset_required, as the service's own frames do. Event payloads are abstract bytes.
- The failure of `encodeFrame` ends the producer with one dropped event; the JSON of a frame and `omitEmpty` are not modelled.
- The random draw of the reconnect interval: any value is allowed.
- Real time and the fairness of select: timers fire at any moment, so there is no bound in seconds on a shutdown, and heartbeats may go on for ever.
- The subject of a slot is an opaque string; whether two principals share one is not part of this model.
- TLS handshakes, X.509, PEM and the matching of a key are functions given as parameters; a PEM block leaves a shorter rest and a certificate keeps its bytes. SHA-256 is taken not to collide.
- The tracker's mutex and the reloader's atomics: each method is one step. The machine of `TrustRotation` interleaves those steps; concurrent Reload, Start and Stop are not modelled, there is one poller.
- New's check that three file names are given, the polling interval and the logging.
- Byte offsets in JSON errors, the decoding of UTF-8, the body size limit. encoding/json reads tokens as they are asked for; here the text is cut into tokens first, with one bad token where it stops being JSON.
- The cancellation and the two-second limit of the health call: any answer at any later time is allowed.
- The text form of URLs: `WorkloadIdentity` starts from the parts a URL parser gives.
- gin's mapping falls back on the field name where a tag is missing, so a query parameter `LastEventID` and a header `After` reach the cursor struct too; `BindCursor` knows only the two tagged names.
- The truncation of details.field to 128 bytes: `JsonPointer` is about the pointer itself.
