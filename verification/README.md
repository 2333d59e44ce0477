# A verified model of the stream converters, session protocol and weight layouts

This project models five parts of the repository and proves what each of them is for.

- **The Anthropic stream converter** (`AnthropicTypes`, `StreamConverting`, `StreamReading`,
  `StreamConservation`, `StreamChunking`, `StreamOneShot`). The converter is a class whose fields are
  those of the Go struct; every method is proved against a fold over the items of the stream. The other
  side is an independent, strict client that rebuilds a message from the events and breaks on the first
  event out of place. The results are about whole streams: when the events obey the grammar, what is
  conserved, that cutting chunks differently changes nothing, and when streaming gives the one-shot
  message. Two of these fail for some streams; the exact condition is proved, with a smallest
  counterexample.
- **The SSE session protocol** (`SseFrames`, `SseStore`, `SseProtocol`, `SseStreams`, `SseSweeps`,
  `SseDrain`, `SseShutdown`, `SseService`). The threads around the session store are a step relation over
  any number of connection threads, message handlers and shutdown threads, with the store lock and one
  write lock per session. Safety holds in every reachable state: mutual exclusion, no deadlock, socket
  ownership, capacity, which sessions a sweep takes, and what a client sees. A session's stream keeps its
  order, header, endpoint, packets, exactly when no handler begins to write to it before the endpoint
  event is out; then a client reading the bytes by section 9.2.6 of the HTML Living Standard sees exactly
  the events sent. Every thread can always still return, and once the server is stopped every schedule
  ends with all of them returned. Left alone, connections are opened, pinged and handed their messages.
  The frame printer has its own exact round trip.
- **HTTP framing** (`HttpFraming`, `HttpLimits`). The two receive loops and the send loops run over a
  socket that splits the bytes in any way; which requests are accepted is told from the text of their
  header.
- **Weight layouts** (`Tensors`, `Rotary`, `KvSplit`, `PatchEmbed`, `Mxfp4`). The repackers fill arrays
  by index or reshape tensors, as in the source; they are proved to be exact index maps,
  rearrangements, and inverses of one another or equal to one another. Elements are of any type.
- **Three algorithms with exact specifications** (`SanitizeJson` with `JsonDocuments`, `FileRoot`,
  `Base64`).

`Common` holds what several modules share.

Imperative code is modelled as classes and methods with loops, each tied by its `ensures` to a function
or a declarative predicate; the lemmas are about those. Methods that the source writes as one body are
split at its loops. `dafny verify dfyconfig.toml` checks everything.

Where the code and its comments differ, the model follows the code. Two places: the size test inside
the body loop of `RecvFullHttpRequest` can stop the loop only when the body is complete anyway, and the
header size test runs after a read, so a header may exceed 16 KiB by up to one read before it is refused
(`NeverRefusedIff`, `AlwaysRefusedIff` give the exact bounds).

## Model

| member | source | states |
|---|---|---|
| StreamConverting.StreamConverter.constructor | ollama/anthropic/anthropic.go:732-740 | a new converter is in the initial state, with no block, no sent id and no tokens |
| StreamConverting.StreamConverter.CloseThinking | ollama/anthropic/anthropic.go:809-819 | an open thinking block is stopped under its own index, latched shut, and the index advances; otherwise nothing |
| StreamConverting.StreamConverter.ProcessThinking | ollama/anthropic/anthropic.go:779-806 | thinking opens a block once and adds deltas until the latch closes |
| StreamConverting.StreamConverter.ProcessContent | ollama/anthropic/anthropic.go:808-847 | content closes thinking, opens a text block once and adds a delta to it |
| StreamConverting.StreamConverter.ProcessToolCall | ollama/anthropic/anthropic.go:849-920 | a new id closes what is open and, if its arguments marshal, is a whole block of its own and remembered; a known id does nothing |
| StreamConverting.StreamConverter.ProcessToolCalls | ollama/anthropic/anthropic.go:849-920 | the loop over the calls is the fold of its items |
| StreamConverting.StreamConverter.ProcessItems | ollama/anthropic/anthropic.go:779-920 | a chunk contributes its thinking, then its content, then its calls, and empty strings contribute nothing |
| StreamConverting.StreamConverter.Process | ollama/anthropic/anthropic.go:749-968 | the converter's whole new state and its events are those of the specification step |
| StreamConverting.StreamConverter.Finish | ollama/anthropic/anthropic.go:922-965 | Done stops the open block, takes the final counts and ends the message with the right stop reason |
| StreamConverting.RunAppend | ollama/anthropic/anthropic.go:749-968 | running two lists of items one after the other is running their concatenation, in state and in events |
| StreamConverting.CoreIsRunOfItems | ollama/anthropic/anthropic.go:749-968 | flags, index and sent ids after a stream depend on its items alone, not on how chunks group them |
| StreamReading.ItemsShown | ollama/anthropic/anthropic.go:779-920 | a strict client that reads the events of any items is exactly where the document built from the items stands, or broken where that clashes |
| StreamReading.StreamRead | ollama/anthropic/anthropic.go:749-968 | for every stream with Done only last, the client ends with the message its items describe, or broken |
| StreamReading.MessageBegins | ollama/anthropic/anthropic.go:752-777 | every stream begins with its one message_start, which carries the first chunk's prompt tokens, or the estimate if there are none and it is positive |
| StreamReading.MessageEnds | ollama/anthropic/anthropic.go:699-714 | the completed message's stop reason is "tool_use" if and only if some call of the stream marshals, else "end_turn", "max_tokens", "" or "stop_sequence" by the last chunk's reason; its id, model and token counts are the converter's and the last chunk's |
| StreamReading.ClashIffInterrupted | ollama/anthropic/anthropic.go:779-793 | the document clashes exactly when the first thinking of the stream comes while a text block is open |
| StreamReading.GrammarExactlyUnlessInterrupted | ollama/anthropic/anthropic.go:749-968 | the events are one start, blocks numbered 0, 1, 2, … each with one start, deltas of its kind and one stop, never two open, then the ending, if and only if the first thinking does not come while a text block is open |
| StreamReading.LateThinkingBreaksGrammar | ollama/anthropic/anthropic.go:779-793 | two chunks, content and then thinking, break the grammar: the open index is used again |
| StreamConservation.CoreFacts | ollama/anthropic/anthropic.go:779-920 | the flags and sent ids after any items, told from the items: which ids were sent, whether any thinking came, whether something closed it |
| StreamConservation.ParcelsAreDue | ollama/anthropic/anthropic.go:779-920 | for any items in any order, the events carry exactly what each item is owed, in order, tool blocks once for the first occurrence of an id that marshals |
| StreamConservation.Conservation | ollama/anthropic/anthropic.go:779-920 | for any chunks in any order, text deltas concatenate to all the content and thinking deltas to the thinking up to the item that closes it |
| StreamChunking.PiecesAreOne | ollama/anthropic/anthropic.go:779-847 | two adjacent pieces of one kind have the canonical form of their join |
| StreamChunking.CanonReads | ollama/anthropic/anthropic.go:779-920 | items with one canonical form leave any converter in one state and any client in one state |
| StreamChunking.CutChunkReadsAlike | ollama/anthropic/anthropic.go:779-847 | cutting one chunk's content or thinking in two changes neither the converter's state nor the client's, from any state |
| StreamChunking.CuttingReassemblesAlike | ollama/anthropic/anthropic.go:749-968 | the same inside any stream |
| StreamChunking.ChunkingIndependent | ollama/anthropic/anthropic.go:749-968 | all ways of cutting one stream reassemble to one message and one final state |
| StreamOneShot.ToMessagesResponse | ollama/anthropic/anthropic.go:656-714 | the one-shot message: thinking, text, then all calls, with usage, and the stop reason "tool_use" if and only if there is a call, else by the reason given |
| StreamOneShot.WholeIffOrderly | ollama/anthropic/anthropic.go:656-697 | the document of a stream is the whole answer if and only if thinking precedes content precedes calls, ids are distinct and arguments marshal |
| StreamOneShot.StreamingIsOneShotExactlyWhenOrderly | ollama/anthropic/anthropic.go:656-968 | the streamed message, with stop reason and usage, is the one-shot message of the gathered answer if and only if the stream is orderly and names the converter's model |
| SseFrames.RoundTrip | WinBridgeAgent/src/mcp_sse.cpp:131-151 | a client reading whole frames and pings and any beginning of one more sees exactly the events of the whole frames, in order; pings and the cut write show nothing |
| SseFrames.PacketRead | WinBridgeAgent/src/mcp_sse.cpp:131-139 | one frame or ping reads as its own event or nothing, and leaves the client's buffers as before |
| SseFrames.CutHasNoBlank | WinBridgeAgent/src/mcp_sse.cpp:131-139 | no proper beginning of a frame or ping holds the blank line that would dispatch it |
| SseFrames.StreamReadsBackIff | WinBridgeAgent/src/mcp_sse.cpp:131-151 | a stream of frames and pings reads back as exactly the events it was made from if and only if no frame holds a line break in its event or data |
| SseStore.AgeIsTrueAge | WinBridgeAgent/src/mcp_sse.cpp:71-75 | the 32-bit difference of ticks is the true age modulo 2^32 across any wraparound |
| SseStore.ExpiredIff | WinBridgeAgent/src/mcp_sse.cpp:71-75 | the age test is right if and only if it is not the case that the age is 2^32 ms or more and the remainder is within the hour |
| SseStore.CloseSessionSocket | WinBridgeAgent/src/mcp_sse.cpp:58-65 | the socket is closed once if the session still has it, and given up |
| SseStore.SseSessionStore.Sweep | WinBridgeAgent/src/mcp_sse.cpp:70-80 | the store keeps exactly the live sessions of age at most an hour, untouched; the others are dead and their sockets closed once each |
| SseStore.SseSessionStore.CreateSession | WinBridgeAgent/src/mcp_sse.cpp:67-95 | after the sweep a session is added if and only if fewer than sixteen stay, with its socket, its id and the later tick, in place of one filed under the same id if the draw repeats itself |
| SseStore.SseSessionStore.FindSession | WinBridgeAgent/src/mcp_sse.cpp:97-102 | the one session in the store whose id it is, or null if no session has the id |
| SseStore.SseSessionStore.RemoveSession | WinBridgeAgent/src/mcp_sse.cpp:104-107 | the store keeps exactly the sessions with another id, and no session or socket is touched |
| SseStore.SseSessionStore.ShutdownAllSessions | WinBridgeAgent/src/mcp_sse.cpp:109-118 | the store is empty, every session dead, and each socket still held is closed once |
| SseSweeps.MarkedDead | WinBridgeAgent/src/mcp_sse.cpp:70-80 | a step marks a session dead only in a shutdown, in the sweep of a new connection that finds it more than an hour old, or after a send that failed or met a closed socket |
| SseSweeps.LeavesStore | WinBridgeAgent/src/mcp_sse.cpp:67-118 | in every run a session leaves the store only by its own thread, a shutdown, or a sweep that had found it dead or more than an hour old |
| SseSweeps.CreateDecides | WinBridgeAgent/src/mcp_sse.cpp:67-95 | when a sweep ends, amid any other threads, all that stay are at most an hour old by the tick it read; the connection is refused if and only if sixteen stay, else its session is added and no other leaves |
| SseSweeps.ShutdownCloses | WinBridgeAgent/src/mcp_sse.cpp:109-118 | when a shutdown leaves the store, every session that was in it is dead and its socket closed exactly once |
| SseSweeps.StoreServed | WinBridgeAgent/src/mcp_sse.cpp:97-107 | in every reachable state each session in the store belongs to a connection thread that has not yet taken it out, let alone returned |
| SseProtocol.MoveHandsLocks | WinBridgeAgent/src/mcp_sse.cpp:58-152 | every step takes only free locks, gives up only its own, and moves to a point that says so |
| SseProtocol.MoveClosesOnce | WinBridgeAgent/src/mcp_sse.cpp:58-65 | a step closes a socket only together with the session's handle, under the write lock, and writes nothing on a closed socket |
| SseProtocol.StepKeeps | WinBridgeAgent/src/mcp_sse.cpp:58-349 | every step of every thread keeps the lock invariant and the shape of the state |
| SseProtocol.StepOwns | WinBridgeAgent/src/mcp_sse.cpp:58-349 | every step keeps the account of which sockets are open, closed, and being written |
| SseProtocol.MutualExclusion | WinBridgeAgent/src/mcp_sse.cpp:68-151 | in every reachable state no two threads hold the store lock, or one session's write lock |
| SseProtocol.BlockersEnd | WinBridgeAgent/src/mcp_sse.cpp:58-152 | the store lock is only taken before a write lock: from any waiting thread one or two holders lead to a thread that waits for nothing |
| SseProtocol.NeverStuck | WinBridgeAgent/src/mcp_sse.cpp:58-349 | in every reachable state with a thread that has not returned, some thread can step |
| SseDrain.MoveDescends | WinBridgeAgent/src/mcp_sse.cpp:58-349 | every step in which sends fail or end, handlers decline and connections are refused brings its thread nearer to its return, by a rank told from its point |
| SseDrain.EveryThreadCanReturn | WinBridgeAgent/src/mcp_sse.cpp:58-351 | from every reachable state some continuation without new threads has every thread returned, no lock held, and every socket closed exactly once |
| SseShutdown.StoppedStepDescends | WinBridgeAgent/src/mcp_sse.cpp:58-351 | once the server is stopped, every step of every thread lowers what its thread still has to do, or keeps it and lowers the bytes to be written: no schedule goes on for ever |
| SseShutdown.BegunShutdownStops | WinBridgeAgent/src/main.cpp:1831-1834 | in every reachable state the running flag is down once a shutdown thread has begun |
| SseShutdown.ShutdownEnds | WinBridgeAgent/src/mcp_sse.cpp:58-351 | once stopped, every schedule without new threads takes at most 68 steps for each thread besides writing bytes, and one that cannot go on has every thread returned, no lock held and every socket closed exactly once |
| SseService.ConnectionServed | WinBridgeAgent/src/mcp_sse.cpp:285-318 | with the store free and room among sessions that are not stale, a connection gets from its arrival to its first wait by its own steps: filed, greeted, announced, and nothing else changed |
| SseService.PingSent | WinBridgeAgent/src/mcp_sse.cpp:322-343 | a waiting connection whose session is live and free can add one whole ping and wait again |
| SseService.MessageDelivered | WinBridgeAgent/src/mcp_sse.cpp:121-151 | a handler for a live and free session can go from its beginning to its return by its own steps and adds its whole frame, and nothing else changes |
| SseService.GoesOnOnlyAlive | WinBridgeAgent/src/mcp_sse.cpp:121-130 | a thread that looks at a session goes on to write to it only if it is alive, and a waiting connection pings if and only if the session is alive and the server runs |
| SseService.FailedSendKills | WinBridgeAgent/src/mcp_sse.cpp:140-151 | in every reachable state a sender about to report failure, except of the header, has left the session dead |
| SseProtocol.SocketOwnership | WinBridgeAgent/src/mcp_sse.cpp:235-351 | in every reachable state each connection's socket is closed at most once, and exactly once if its thread has returned |
| SseProtocol.NothingAfterClose | WinBridgeAgent/src/mcp_sse.cpp:121-151 | once a socket is closed nothing is written on it and it is never closed again, in any continuation |
| SseProtocol.SendOutcome | WinBridgeAgent/src/mcp_sse.cpp:140-151 | in every reachable state a sender about to report success has its whole frame, ping or header as the last thing on the wire, and one about to report failure has left the socket closed, except after the header |
| SseProtocol.Capacity | WinBridgeAgent/src/mcp_sse.cpp:82-85 | every reachable store holds at most sixteen sessions, all of which exist |
| SseStreams.StepStream | WinBridgeAgent/src/mcp_sse.cpp:121-151 | every step that is not a handler beginning to write to the session before its announcement keeps its log a header, the endpoint event and packets, all whole but perhaps the last, which is torn only while it is being written or once the socket is closed |
| SseStreams.EarlySpoils | WinBridgeAgent/src/mcp_sse.cpp:121-151 | a handler that begins to write before the announcement always spoils that log |
| SseStreams.StreamShapedIff | WinBridgeAgent/src/mcp_sse.cpp:285-343 | over every run, the log of a session keeps that shape at every point if and only if no step is early for it |
| SseStreams.ClientSeesUnlessEarly | WinBridgeAgent/src/mcp_sse.cpp:285-343 | without an early step the bytes of a session are a beginning of the header, or the header and a body a client reads as exactly the events sent whole, all but perhaps the last that was begun, the endpoint first |
| SseStreams.PoliteIsNeverEarly | WinBridgeAgent/src/mcp_sse.cpp:308-312 | a run whose handlers start only for announced sessions has no early step |
| SseStreams.StreamIntegrity | WinBridgeAgent/src/mcp_sse.cpp:285-343 | so on such a run the client of every session sees exactly the events sent |
| SseStreams.HeadingAccepts | WinBridgeAgent/src/mcp_sse.cpp:277-283 | the header begins with the status line of success and ends with its empty line |
| SseStreams.UnannouncedSessionSpoilsStream | WinBridgeAgent/src/mcp_sse.cpp:121-151 | a run with an early step, in which a frame goes out before the response header |
| HttpFraming.FindInPrefix | WinBridgeAgent/src/http_server.cpp:72-74 | searching what has arrived finds what searching the whole stream finds, if it ends within what has arrived |
| HttpFraming.RecvHeader | WinBridgeAgent/src/http_server.cpp:64-79 | the first loop stops at the first read that completes the header, refuses on too much without one, or returns what came |
| HttpFraming.RecvBody | WinBridgeAgent/src/http_server.cpp:120-133 | the second loop reads to the first boundary that completes the body, or to the end |
| HttpFraming.RecvFullHttpRequest | WinBridgeAgent/src/http_server.cpp:55-136 | the result is the one told from the stream and the read boundaries alone, both loops terminate, and only a front of the stream is consumed |
| HttpFraming.ResultIsPrefix | WinBridgeAgent/src/http_server.cpp:55-136 | the result is empty exactly on silence or refusal, else a prefix of the stream with the whole request and at most 4095 bytes more |
| HttpFraming.FragmentationIndependent | WinBridgeAgent/src/http_server.cpp:55-136 | any two deliveries of the same bytes whose headers are accepted agree on header, terminator and announced body |
| HttpFraming.NeverRefusedIff | WinBridgeAgent/src/http_server.cpp:75-78 | no delivery is refused for its header if and only if the terminator ends within 16385 bytes, or there is none and the stream is at most 16384 |
| HttpFraming.AlwaysRefusedIff | WinBridgeAgent/src/http_server.cpp:75-78 | every delivery is refused if and only if the terminator ends past 20480 bytes, or there is none and the stream is longer than 16384 |
| HttpFraming.ContentLengthRead | WinBridgeAgent/src/http_server.cpp:82-102 | the length read is the number written behind the first occurrence of the name, in any spelling of its letters and with any blanks around it, saturated at 64 bits |
| HttpFraming.LengthIsFieldsIff | WinBridgeAgent/src/http_server.cpp:82-102 | what is read is the value of the first Content-Length field if and only if the first occurrence of the name begins a line; otherwise the field, if there is one, comes later |
| HttpFraming.LongerNameMisread | WinBridgeAgent/src/http_server.cpp:82-102 | a longer field name that ends in this one hides the field behind it: its number is read instead |
| HttpLimits.NumberRead | WinBridgeAgent/src/http_server.cpp:100 | the number in a field: spaces, a sign and zeros in front are allowed, what follows the digits is ignored, too much for 64 bits is the largest value, and a minus negates modulo 2^64 |
| HttpLimits.NoNumberRead | WinBridgeAgent/src/http_server.cpp:100 | without a digit behind spaces and sign the length is zero |
| HttpLimits.LimitOf | WinBridgeAgent/src/http_server.cpp:104-115 | the limit is 268435456 if the first line holds "POST" and "/upload", and 4194304 otherwise |
| HttpLimits.NoLengthArrives | WinBridgeAgent/src/http_server.cpp:82-135 | a request whose header nowhere spells the name, in any case, is returned as soon as its header is complete, under every split, with at most 4095 bytes more |
| HttpLimits.AnnouncedOutcome | WinBridgeAgent/src/http_server.cpp:82-135 | a request that announces n bytes is refused if and only if n is over the limit of its first line, in numbers; else it comes back with all of them that arrive and at most 4095 bytes more |
| HttpFraming.WholeMessageArrives | WinBridgeAgent/src/http_server.cpp:55-136 | a message that states its body's length, within the limits, comes back whole under every delivery |
| HttpFraming.SendAll | WinBridgeAgent/src/http_server.cpp:39-49 | bytes go out in order, each once; success if and only if all of them did; a socket that always takes something gets everything |
| HttpFraming.CastKeepsLengthIff | WinBridgeAgent/src/http_server.cpp:51-53 | the cast of the size to int is the one 32-bit value congruent to it, and keeps it if and only if it is below 2^31 |
| HttpFraming.SendAllString | WinBridgeAgent/src/http_server.cpp:51-53 | below 2^31 bytes success means everything was sent; from there on everything is never sent: a cast that is not positive reports success with nothing sent, and one that is reports success if and only if that many bytes went out |
| Tensors.TransposedAt | ollama/convert/convert_llama.go:209-219 | transposing puts the element of an index at the permuted index |
| Tensors.TransposeRoundTrip | ollama/convert/convert_glm4moelite.go:153-159 | transposing by an axis order and then by its inverse gives the tensor back |
| Tensors.SizePermuted | ollama/convert/convert_llama.go:209-219 | permuting the dimensions by any axis order keeps the size |
| Tensors.TransposedRearranges | ollama/convert/convert_llama.go:209-219 | for every axis order the transposed tensor holds the same elements |
| Tensors.SliceAt | ollama/convert/convert_glm4moelite.go:168-185 | a slice holds the elements of its range, shifted on the one axis |
| Rotary.NormalToNeoX | ollama/convert/convert_glmocr.go:22-77 | every row reached comes from the row the even-then-odd order of its head names, the other rows of the head from themselves; where a rotary part is longer than the head the last head to reach a row decides; what no head reaches is zero |
| Rotary.NeoXRearranges | ollama/convert/convert_glmocr.go:50-72 | with whole heads and a rotary part that fits the head the result holds the same elements and fixes the non-rotary rows |
| Rotary.Repack | ollama/convert/convert_llama.go:189-232 | a name that ends in one of the query suffixes is repacked for the query heads, one that ends in a key suffix for the K/V heads or, if that count is zero, the query heads, any other is an error; the repacking is the transpose of the two middle axes and fails exactly when rank or size does not fit |
| Rotary.RepackRearranges | ollama/convert/convert_llama.go:209-219 | the llama repacking holds the same elements |
| Rotary.NeoXUndoesRepack | ollama/convert/convert_glmocr.go:50-72 | separating the halves undoes the llama repacking on every array with whole heads of even dimension and full rotary part |
| KvSplit.RepackKVB | ollama/convert/convert_glm4moelite.go:137-193 | K and V hold the elements at the positions the comment names, from either orientation; an error exactly when rank or size does not fit |
| KvSplit.SplitLosesNothing | ollama/convert/convert_glm4moelite.go:134-136 | K and V together hold every element of the combined weight exactly once |
| KvSplit.OrientationFree | ollama/convert/convert_glm4moelite.go:152-159 | the flipped form on the transposed weight normalizes to what the other form has on the original |
| KvSplit.SplitUnique | ollama/convert/convert_glm4moelite.go:134-136 | the combined weight determines K and V |
| KvSplit.LayoutChosen | ollama/convert/convert_glm4moelite.go:241-258 | head count and orientation are read correctly off the shape of a transposed weight always, and of the other if and only if the row count differs from the rank |
| KvSplit.LayoutAlways | ollama/convert/convert_glm4moelite.go:241-258 | for every shape: which orientation is assumed, and that the head count is the exact quotient if there is one and the configured count if not |
| PatchEmbed.RepackPatchEmbeddingWeight | ollama/convert/convert_lfm2_vl.go:380-417 | succeeds exactly when rank, input width and size fit, and then moves every pixel's channels to their planes |
| PatchEmbed.PatchAt | ollama/convert/convert_lfm2_vl.go:400-414 | element [out, y, x, c] lands at [out, c, y, x] for all sizes |
| PatchEmbed.ChannelMajorRearranges | ollama/convert/convert_lfm2_vl.go:400-414 | the result holds the same elements |
| PatchEmbed.ReshapePatchEmbed | ollama/convert/convert_gemma4.go:398-424 | the planes are filled from the rows, what is left is zero, and the shape is rewritten, on all data that reach as far as the loops read; other ranks pass through |
| PatchEmbed.ConversionsAgree | ollama/convert/convert_gemma4.go:398-424 | with three channels and rows of 3·p² both conversions compute the same array, and the square root recovers p |
| Mxfp4.PackBlock | ollama/convert/convert_gptoss.go:230-235 | the buffer holds the block's new bytes while the block is still unwritten |
| Mxfp4.Shuffle | ollama/convert/convert_gptoss.go:227-238 | in place, byte m of every block holds element m low and element m+16 high of the original block |
| Mxfp4.ElementsKept | ollama/convert/convert_gptoss.go:231-235 | every four-bit element is found again where the new layout says |
| Mxfp4.ShuffleInjective | ollama/convert/convert_gptoss.go:227-238 | two buffers shuffle alike if and only if they are equal |
| Mxfp4.RestoredShuffles | ollama/convert/convert_gptoss.go:227-238 | every buffer of whole blocks is the shuffle of the one restored from it |
| SanitizeJson.Sanitize | ollama/convert/json_compat.go:13-68 | the loop computes the one-pass specification |
| JsonDocuments.SanitizedDocument | ollama/convert/json_compat.go:3-12 | for every JSON document whose numbers may be the three words, in any whitespace, the sanitized text is the text of the document with those numbers 0 |
| JsonDocuments.ZeroedFinite | ollama/convert/json_compat.go:3-12 | that document is well-formed standard JSON, and a document that already was is left alone |
| JsonDocuments.ZeroIffDelimited | ollama/convert/json_compat.go:70-97 | in any text, outside strings, each of the three words becomes a zero if and only if its neighbours are an end of the text or among " \t\n\r:,[" before and " \t\n\r,]}" behind |
| SanitizeJson.ReplacesExactlyTheTokens | ollama/convert/json_compat.go:3-12 | position by position: a delimited token outside strings becomes one zero and every other byte stays |
| SanitizeJson.StringsCopied | ollama/convert/json_compat.go:25-43 | the bytes of the string literals, quotes included, are the same before and after |
| SanitizeJson.LiteralBytesStay | ollama/convert/json_compat.go:25-43 | no byte of a literal, nor its opening quote, is replaced |
| SanitizeJson.SanitizeIdempotent | ollama/convert/json_compat.go:13-68 | sanitizing again changes nothing |
| SanitizeJson.NoTokenLeft | ollama/convert/json_compat.go:70-85 | no delimited token stands outside strings in the output |
| FileRoot.StaysBelowIffPrefix | ollama/cmd/cmd.go:472-475 | the string test on the relative path is right: it holds if and only if one path is at or below the other, and the relative path is then the rest |
| FileRoot.Climb | ollama/cmd/cmd.go:471-482 | the climb ends at the deepest directory above both, and fails exactly when the volumes differ |
| FileRoot.CommonFileRoot | ollama/cmd/cmd.go:447-486 | a root is found if and only if there are two or more files, all resolve and share a volume; it contains them all and no directory below it does, whatever the order of the map |
| FileRoot.DeepestUnique | ollama/cmd/cmd.go:447-486 | the order of the map cannot change the root |
| FileRoot.CreateRequestFileNames | ollama/cmd/cmd.go:429-445 | every file is named by its path from the root; without a root by the text behind its last separator, whatever stands before and however many separators follow, "." for the empty name and "/" for separators alone |
| FileRoot.EqualFoldIff | ollama/cmd/cmd.go:459-463 | volumes compare equal if and only if they differ at most in the case of letters |
| FileRoot.AbsOfClean | ollama/cmd/cmd.go:435 | a clean relative path resolves to itself below the working directory and a clean rooted one to itself |
| FileRoot.AbsFileNamed | ollama/cmd/cmd.go:429-445 | a file resolved by cleaning its path against a working directory is named as the next row asks |
| FileRoot.NamesDistinctAndRejoin | ollama/cmd/cmd.go:429-445 | files with one name are one path, the top directory included; below it a name rejoined with the root is the path, and files of one path have one name |
| Base64.Base64Encode | WinBridgeAgent/src/main.cpp:880-922 | the accumulator loop computes the encoding by groups of three |
| Base64.EncodeTail | WinBridgeAgent/src/main.cpp:906-919 | one or two bytes left over give two or three characters and padding |
| Base64.RoundTrip | WinBridgeAgent/src/main.cpp:880-922 | a decoder written from section 4 of RFC 4648 maps every encoding back to its bytes |
| Base64.EncodedShape | WinBridgeAgent/src/main.cpp:906-919 | the length is 4·⌈n/3⌉ and exactly the last (2n mod 3) characters are padding |

## Left out

- NormalToNeoX: the truncated product of head dimension and factor is a natural number given as a parameter, because floating point has no exact property here; data that end before what the loops reach are excluded, where the source would panic. The head-count check only logs and is left out.
- Repack: the tensor library's reshape, transpose and row selection are not part of this model; each is its documented index map, and the size checks stand for its errors.
- RepackKVB: the same assumption for transpose, reshape, slice and materialize; the error messages are shortened.
- ReshapePatchEmbed: the square root is the exact integer square root, where the source goes through a double; data that end before what the loops read are excluded, where the source would panic.
- Shuffle: the buffer is whole blocks of sixteen bytes, as the source requires; the tensor steps after the loop are not modelled.
- Process: tool arguments are the outcome of marshalling them, text or failure; Go's integers are unbounded; trace and log calls are not modelled.
- CreateRequestFileNames: paths are cleaned components on '/', as on Unix; volume names are kept and compared, but the case folding of paths and the backslash of Windows are not modelled. Volume names fold ASCII letters only.
- RecvFullHttpRequest: bytes are characters; the receive timeout counts as a closed connection; log calls are not modelled.
- CreateSession: session ids are given, where the source draws 128 random bits. The three phases of a store operation under one lock are one method here; `SseProtocol` has them as separate steps.
- StreamIntegrity: sockets are never reused, a write to a closed socket fails with nothing sent, and a session goes by the name of its thread instead of a random string, so that ids never collide. The header goes to the thread's local handle, as in the source, and is covered by the same assumption. Setting the alive flag and closing under one write lock are one step.
- EveryThreadCanReturn: says that threads can return, not that a given schedule makes them while the server runs, since a connection may ping for ever; `ShutdownEnds` says that every schedule does once it is stopped. Sleeping and timeouts are not modelled, and the session count read by the health route behaves like a lookup.
- Message handlers' JSON-RPC processing: request parsing, policy, tools and dashboard; a handler looks its session up and then sends at most one event with any data, or none.
- Host header and query parsing for the endpoint event: the endpoint's address is any text.
- Request conversion, token estimates and web search of the Anthropic layer: field mapping and network calls.
- The other converters, model metadata and replacement tables: field copying.
- HTTP routes, MCP tools, tray, updater, screenshots and process execution of the agent; CLI handlers and terminal output.
