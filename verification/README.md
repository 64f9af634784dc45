# Verification of my-grpc-extensions

Dafny models of the stateful parts of `my-grpc-extensions` and `proto-file-reader`, with proofs about
whole runs, all inputs and all interleavings. `dafny verify dfyconfig.toml` checks everything.

## What is modelled

**The request stream** (`StreamedRequestProtocol`, `StreamedRequestSafety`, `StreamedRequestProgress`,
`StreamedRequestInner`). Producers, spawned "bind the sender" jobs and spawned "end of stream" jobs race
on one mutex-guarded slot and feed bounded channels. `StreamedRequestProtocol` is a state machine whose
step is the stretch a job runs between two awaits, so a bind that drains its buffer and a send that waits
for capacity are several steps with the mutex held. The safety module speaks about any number of
producers, consumers (one per attempt of a retried request) and end-of-stream jobs; the progress module
restricts the same steps to one producer that sends a script in turn and one consumer that keeps
reading, and shows that every run ends with the whole script followed by end-of-stream.
`StreamedRequestInner` is the object itself with its methods, which run while they hold the mutex;
`BindSectionIsAtomic` and `SendSectionIsAtomic` are why they may be read as one step.

**The proto reader** (`Utf8`, `ProtoTokens`, `ProtoTokensReader`, `ProtoReader`, `ParamTypes`,
`ProtoRoundTrip`, `SnakeCase`). The byte tokenizer with its reader object, the line-by-line parser whose
variables outlive each line, and the parser of parameter types, each an imperative method or class
proved against a specification function. A layout (tokens, gaps of white space, words that do not touch)
is an independent account of which texts carry which tokens; tokenizing is its inverse. On top of it:
the result depends on the tokens alone, and a printed service of `;`-terminated rpcs reads back.

**Server streams and collectors** (`ServerStreams`, `StreamCollectors`, `StreamEndToEnd`). The feeding
loops against an adversary that decides how each send ends, the collecting loops against an adversary
that decides what each wait brings, and both ends stepping concurrently with the 100-slot channel and a
transport between them.

**Response writer** (`ResponseWriter`). The writer and any number of producers share one channel.

**Channel cache, retries and ping** (`ChannelSafety`, `GrpcRequests`). The shared holder under any number
of request jobs and the ping loop, stepping at lock granularity; and one request from the caller's side
with its loops, outcomes and clock, where other jobs may change the holder before each lock and during
the call.

**Telemetry ids** (`TelemetryIds`). The header codec with signed 64-bit decimal bounds.

`Sequences` holds the shared facts about sequences.

Of the libraries the model takes that a bounded channel is first-in first-out, that `send` waits while it
is full and fails only when the receiver is gone, that `recv` yields `None` only when it is empty and
every sender is dropped, and that a mutex is exclusive. Timeouts are outcomes an adversary chooses. I/O,
connection attempts, calls and clocks are parameters of this kind.

## Where a natural law fails

The code is modelled as it is. Each of these has a concrete input or run, and the exact condition.

- An ended request stream does not stay ended: binding again can revive it, exactly when an earlier bind
  had stored a sender before the end was processed (`EndedStreamStaysEndedExactly`,
  `RebindRevivesExactlyAfterAnEarlierBind`, `RevivedStreamExists`). Claims that the whole script arrives
  are therefore about one consumer.
- A server send that times out looks like the proper end of the stream to the client, who is told `Ok`
  with a proper prefix. This can happen exactly for sources longer than the channel
  (`PartialSuccessExactlyForLongSources`).
- `drop_channel` takes whatever is in the holder, not the channel that failed: the two are the same exactly
  when no job stored or dropped a channel in between (`DropHitsTheFailedChannelExactlyIfUndisturbed`,
  `HealthyChannelCanBeDropped`).
- A type called `stream`, and an output type called `returns`, do not read back (`ParamReadsBackExactly`,
  `RpcReadsBackExactly`); a streamed `google.protobuf.Empty` loses its flag (`StreamFlagIsKeptExactly`).
  `KeywordTypesAreLost` has the inputs.
- Snake-casing is not injective: two ASCII names collide exactly when they are equal after folding, which
  undoes an underscore before a lower case letter and a lower case start (`NamesCollideExactly`,
  `OtherNamesCollide`).

## Model

| member | source | states |
|---|---|---|
| StreamedRequestProtocol.InvPreserved | my-grpc-extensions/src/grpc_channel/streamed_request/streamed_request_inner.rs:26-121 | Every step of every job (a send, a bind with its drain, an end of stream, a receiver) keeps the invariant: channels bound once, the mutex holder and the stored sender belong to the latest bound channel, no channel over capacity, and items accepted = items settled with the channels, in bind order, followed by the items still held |
| StreamedRequestProtocol.SettledItemsMoveToTheLedger | my-grpc-extensions/src/grpc_channel/streamed_request/streamed_request_inner.rs:45-52 | A forward by the mutex holder moves its item, or on a closed receiver its item and the rest of the drain, from the front of what is held to the end of what is settled, which keeps the balance |
| StreamedRequestProtocol.SettledItemsEnterTheAccount | my-grpc-extensions/src/grpc_channel/streamed_request/streamed_request_inner.rs:84-90 | Those items go to the account of the latest bound channel; every other channel, the bind order and the accepted items stay as they were |
| StreamedRequestSafety.ReachableStatesSatisfyInv | my-grpc-extensions/src/grpc_channel/streamed_request/streamed_request_inner.rs:25-122 | The invariant holds after every run, for any number of producers, consumers and end-of-stream jobs |
| StreamedRequestSafety.RebindsNeverDuplicateOrReorder | my-grpc-extensions/src/grpc_channel/streamed_request/streamed_request_inner.rs:64-103 | Over any number of rebinds the channel histories, one after the other in bind order, pick strictly increasing positions of the accepted items: each accepted item enters at most one channel, once; every other one is still held or was lost to a channel whose receiver closed |
| StreamedRequestSafety.HistoriesWithinLedger | my-grpc-extensions/src/grpc_channel/streamed_request/streamed_request_inner.rs:84-90 | What entered the channels is what was meant for them minus the recorded losses, order kept |
| StreamedRequestSafety.SingleBindConservesItems | my-grpc-extensions/src/grpc_channel/streamed_request/streamed_request_inner.rs:26-104 | With one consumer whose receiver stays open: received, queued, in the hands of the mutex holder and buffered, in this order, are exactly the accepted items |
| StreamedRequestSafety.AtMostOneSender | my-grpc-extensions/src/grpc_channel/streamed_request/streamed_request_inner.rs:95-101 | A channel never has two live sender handles, and one that has none never gets one again |
| StreamedRequestSafety.SenderlessChannelIsFrozen | my-grpc-extensions/src/grpc_channel/streamed_request/streamed_request_inner.rs:106-121 | Nothing enters a channel without a live sender |
| StreamedRequestSafety.SenderlessChannelStaysFrozen | my-grpc-extensions/src/grpc_channel/streamed_request/streamed_request_inner.rs:106-121 | Over every run a channel that has lost its sender stays without one, and nothing enters it |
| StreamedRequestSafety.HeldMutexCanProceed | my-grpc-extensions/src/grpc_channel/streamed_request/streamed_request_inner.rs:84-90 | No deadlock for any number of producers, consumers and closings: while the mutex is held, the holder can go on or its full channel can be read |
| StreamedRequestSafety.EndOfStreamIsFinal | my-grpc-extensions/src/grpc_channel/streamed_request/streamed_request_inner.rs:91-120 | Whatever runs after a consumer saw end-of-stream, it had already received everything that ever enters its channel |
| StreamedRequestSafety.EndedStreamStaysEndedExactly | my-grpc-extensions/src/grpc_channel/streamed_request/streamed_request_inner.rs:91-101 | Over every run that follows a processed end, with any items still buffered or draining and any refusal: the stream stays ended throughout if and only if the end came before any bind had stored a sender, or nothing is bound in the run; while it does, nothing is accepted |
| StreamedRequestSafety.RefusedDrainLeavesTheStreamUnbound | my-grpc-extensions/src/grpc_channel/streamed_request/streamed_request_inner.rs:84-90 | Over every run without a further bind after a refused drain, everything accepted is held for the next bind and nothing more is lost to the channel that refused |
| StreamedRequestSafety.SendPanicsExactlyWhenOver | my-grpc-extensions/src/grpc_channel/streamed_request/streamed_request_inner.rs:39-58 | A send panics exactly on an ended stream, and its item is accepted exactly otherwise |
| StreamedRequestSafety.ConsumerGetsTheSizeAskedFor | my-grpc-extensions/src/streamed_request.rs:38-46 | Over every run a consumer's channel holds at most the size it was created with |
| StreamedRequestSafety.RebindRevivesExactlyAfterAnEarlierBind | my-grpc-extensions/src/grpc_channel/streamed_request/streamed_request_inner.rs:95-101 | Some run brings the stream back to life after its end was processed if and only if an earlier bind had stored a sender by then (the law "an ended stream stays ended" fails there) |
| StreamedRequestSafety.RevivedStreamExists | my-grpc-extensions/src/grpc_channel/streamed_request/streamed_request_inner.rs:95-101 | The run that shows it: the first consumer ends properly, the next one has a sender nobody will drop |
| StreamedRequestSafety.BindSectionIsAtomic | my-grpc-extensions/src/grpc_channel/streamed_request/streamed_request_inner.rs:79-103 | However other jobs interleave with a draining bind, its whole effect is the sequential one: k items enter, the rest of the drain is lost, the slot is what a bind alone leaves, nothing is accepted meanwhile |
| StreamedRequestSafety.SendSectionIsAtomic | my-grpc-extensions/src/grpc_channel/streamed_request/streamed_request_inner.rs:45-52 | However other jobs interleave with a send that waits for capacity, its whole effect is the sequential one: its item enters the channel or is lost to it, and the slot and the accepted items do not change meanwhile |
| StreamedRequestSafety.StepUnderDrain | my-grpc-extensions/src/grpc_channel/streamed_request/streamed_request_inner.rs:84-90 | While a bind drains, a step either forwards its next item or leaves it and its channel alone |
| StreamedRequestProgress.SessionInvPreserved | my-grpc-extensions/src/streamed_request.rs:32-46 | One producer sending in turn and one consumer: every move keeps exactly one live sender between the request of the stream and the processed end, and no send meets an ended stream |
| StreamedRequestProgress.ConsumerSeesAPrefix | my-grpc-extensions/src/grpc_channel/streamed_request/streamed_request_inner.rs:26-104 | At every moment, however binding races with sending, the consumer has a prefix of the script, no send has panicked, and there is one live sender until the end was processed and nothing is held any more |
| StreamedRequestProgress.EndOfStreamMeansEverythingArrived | my-grpc-extensions/src/grpc_channel/streamed_request/producer.rs:16-23 | End-of-stream is seen only after the dropped producer's end was processed and the whole script was received |
| StreamedRequestProgress.EveryMoveLowersWeight | my-grpc-extensions/src/grpc_channel/streamed_request/streamed_request_inner.rs:26-120 | A measure falls with every move, so no run is infinite |
| StreamedRequestProgress.UnfinishedSessionCanMove | my-grpc-extensions/src/grpc_channel/streamed_request/streamed_request_inner.rs:45-47 | No deadlock: every unfinished state has an enabled move, because receiving never needs the mutex a blocked sender holds |
| StreamedRequestProgress.PlayIsBounded | my-grpc-extensions/src/grpc_channel/streamed_request/streamed_request_inner.rs:26-120 | Every run from a state is at most as long as the state's measure |
| StreamedRequestProgress.EveryMaximalRunDelivers | my-grpc-extensions/src/streamed_request.rs:38-46 | For every script and every channel size of at least 1, every run has at most 3n + 7 moves, and every run that cannot go on has delivered the whole script followed by end-of-stream |
| StreamedRequestProgress.FinishedSessionCannotMove | my-grpc-extensions/src/streamed_request.rs:38-46 | A session whose consumer saw the end has no move left, so complete runs are exactly the finished ones |
| StreamedRequestProgress.EveryRunCanBeCompleted | my-grpc-extensions/src/streamed_request.rs:38-46 | However a run began, it extends to a complete one, which delivers the whole script and its end: complete runs exist for every script and channel size |
| StreamedRequestProgress.StreamDoesNotDependOnTheRace | my-grpc-extensions/src/grpc_channel/streamed_request/streamed_request_inner.rs:25-122 | Any two complete runs, with any two channel sizes, give the consumer the same stream |
| StreamedRequestInner.StreamedRequestInner.Send | my-grpc-extensions/src/grpc_channel/streamed_request/streamed_request_inner.rs:26-62 | Panics exactly in vector mode, on a buffered end of stream and on a taken sender; buffers exactly on an unbound stream that has not ended; forwards otherwise, and says what stays as it was |
| StreamedRequestInner.StreamedRequestInner.SetSender | my-grpc-extensions/src/grpc_channel/streamed_request/streamed_request_inner.rs:64-104 | Vector mode replays the vector and drops the sender; stream mode drains the buffer in order until a refusal, keeps or drops the sender by the buffered end flag, and replaces and drops an earlier sender |
| StreamedRequestInner.StreamedRequestInner.SendEof | my-grpc-extensions/src/grpc_channel/streamed_request/streamed_request_inner.rs:106-121 | Sets the flag on an unbound stream, drops the stored sender of a bound one, ignores vectors |
| StreamedRequestInner.StreamedRequestInner.Forward | my-grpc-extensions/src/grpc_channel/streamed_request/streamed_request_inner.rs:84-90 | Exactly the items that fit before the first refusal enter the channel, in order |
| StreamedRequestInner.StreamBoundAnywhere | my-grpc-extensions/src/grpc_channel/streamed_request/streamed_request_inner.rs:26-121 | A script is sent and ended and one consumer bound at any point, before, between or after: it gets the whole script and its end |
| StreamedRequestInner.RetryAfterRefusedAttempt | my-grpc-extensions/src/grpc_channel/streamed_request/streamed_request_inner.rs:84-90 | A bind whose drain is refused leaves the stream unbound: the refused sender is dropped with the prefix it got, and what is sent from then on reaches the retry |
| StreamedRequestInner.ReplayOnEveryAttempt | my-grpc-extensions/src/grpc_channel/request_builder_with_input_stream_with_retires.rs:42-58 | In vector mode every attempt gets a prefix of the same vector followed by end-of-stream, the whole of it if its receiver stays |
| Utf8.CutAtBoundary | proto-file-reader/src/proto_tokens_reader.rs:35-35 | Cutting valid UTF-8 (section 4 of RFC 3629) between two characters leaves two valid texts |
| Utf8.SliceAtBoundaries | proto-file-reader/src/proto_tokens_reader.rs:63-63 | A slice between two character boundaries is valid UTF-8, so turning it back into text cannot fail |
| Utf8.AsciiStandsAlone | proto-file-reader/src/proto_tokens_reader.rs:48-48 | An ASCII byte of valid text is a character on its own, so both its ends are boundaries |
| Utf8.ValidExactlyIfEncoded | proto-file-reader/src/proto_tokens_reader.rs:35-35 | Valid text is exactly the encoding of some characters as section 3 of RFC 3629 gives it |
| ProtoTokens.RenderedTokensReadBack | proto-file-reader/src/proto_tokens_reader.rs:29-68 | Any layout of tokens (white space between, words not touching) tokenises to these tokens |
| ProtoTokens.LineIsALayoutOfItsTokens | proto-file-reader/src/proto_tokens_reader.rs:29-68 | Every line is a proper layout of its own tokens: each is one delimiter or a maximal run |
| ProtoTokens.TokensAreWhatTheLineLaysOut | proto-file-reader/src/proto_tokens_reader.rs:29-68 | The tokens of a line are exactly the tokens it is a proper layout of (if and only if) |
| ProtoTokens.TokensAreLosslessAndCanonical | proto-file-reader/src/proto_tokens_reader.rs:29-68 | Tokens concatenate to the line without its bytes up to 32, and joined with spaces they tokenise to themselves |
| ProtoTokens.LineBreaksKeepTokens | proto-file-reader/src/proto_tokens_reader.rs:12-26 | Breaking a text into lines anywhere between tokens keeps its tokens |
| ProtoTokens.DelimiterStandsAlone | proto-file-reader/src/proto_tokens_reader.rs:42-53 | Each of ( ) ; { } is a token of its own wherever it stands |
| ProtoTokens.WhiteSpaceSeparates | proto-file-reader/src/proto_tokens_reader.rs:33-40 | A byte up to 32 separates tokens and is part of none |
| ProtoTokens.OtherBytesStayTogether | proto-file-reader/src/proto_tokens_reader.rs:55-65 | A run of any other bytes is one token |
| ProtoTokensReader.PiecesAreValidUtf8 | proto-file-reader/src/proto_tokens_reader.rs:78-88 | Every line of a valid text is valid |
| ProtoTokensReader.CommentLinesExactly | proto-file-reader/src/proto_tokens_reader.rs:80-83 | A line is dropped as a comment if and only if two slashes follow any run of Unicode white space at its start |
| ProtoTokensReader.CleanUpComments | proto-file-reader/src/proto_tokens_reader.rs:78-88 | Exactly the lines whose trimmed text does not start with // are kept, in order, and all are valid UTF-8 |
| ProtoTokensReader.IterateThroughLine | proto-file-reader/src/proto_tokens_reader.rs:29-68 | Returns the next token of the line from any reachable position and where to go on, or nothing exactly when no token is left; every slice taken is valid UTF-8 |
| ProtoTokensReader.ProtoTokensReader.GetNext | proto-file-reader/src/proto_tokens_reader.rs:12-26 | Hands out the remaining tokens one by one across lines, None exactly at the end; terminates with the number of lines as measure |
| ProtoTokensReader.ProtoTokensReader.constructor | proto-file-reader/src/proto_tokens_reader.rs:7-10 | A new reader will hand out the tokens of the text without its comment lines |
| ProtoReader.ParserState.Accept | proto-file-reader/src/proto_file_reader.rs:74-147 | One token takes the parser variables through the same transition as the specification function, including the semicolon appended to the output text after the rpc was closed |
| ProtoReader.ParserState.AcceptLine | proto-file-reader/src/proto_file_reader.rs:73-148 | A line feeds exactly its tokens, in order, into the state that outlives the line; an unnamed rpc is never closed |
| ProtoReader.ReadProtoFile | proto-file-reader/src/proto_file_reader.rs:47-159 | The result is a function of the flattened token sequence of all lines; None (a panic in the source) exactly without a service |
| ProtoReader.KeywordsSpell | proto-file-reader/src/proto_file_reader.rs:76-128 | The keywords are the words service, rpc, returns and Ping (and stream and google.protobuf.Empty for parameters) |
| ProtoReader.AnyRpcIsRead | proto-file-reader/src/proto_file_reader.rs:84-142 | Whatever tokens stand in an rpc, braces included: the input is what comes before the first closing parenthesis, the output what comes before the first semicolon after it, joined with spaces, and only the semicolon ends it |
| ProtoReader.ServiceHeaderIsRead | proto-file-reader/src/proto_file_reader.rs:143-146 | A service header names the service, also if there was one before |
| ProtoReader.ConsumeConcat | proto-file-reader/src/proto_file_reader.rs:70-149 | Reading tokens in two parts is reading them in one |
| ParamTypes.Parse | proto-file-reader/src/param_type.rs:10-35 | The loop over words computes the parameter specification: stream flag, unit for google.protobuf.Empty, last name segment, None without a name |
| ParamTypes.ParamTextWords | proto-file-reader/src/param_type.rs:15-15 | A collected parameter text splits back into the words it was collected from |
| ParamTypes.AnyParamIsParsed | proto-file-reader/src/param_type.rs:10-35 | What any text parses to: the first word other than stream names the type, the flag is set exactly if stream came before it, and without such a word there is no parameter |
| ParamTypes.WhiteSpaceSplitsWords | proto-file-reader/src/param_type.rs:15-15 | Tab, line feed, form feed, carriage return and space separate words wherever they stand |
| ParamTypes.WordStaysTogether | proto-file-reader/src/param_type.rs:15-15 | A text without these is one word |
| ParamTypes.ParamReadsBackExactly | proto-file-reader/src/param_type.rs:10-35 | A printed parameter parses to its flag and last name segment if and only if its type is not called stream |
| ParamTypes.StreamFlagIsKeptExactly | proto-file-reader/src/param_type.rs:26-28 | The stream flag survives if and only if it is not google.protobuf.Empty that is streamed |
| ProtoRoundTrip.FileTokensAreWhatTheLinesLayOut | proto-file-reader/src/proto_tokens_reader.rs:12-88 | The reader sees a token sequence if and only if the lines, comments left out, lay it out |
| ProtoRoundTrip.LayoutDoesNotMatter | proto-file-reader/src/proto_file_reader.rs:70-149 | Two files that lay out the same tokens, with any line breaks, spacing and whole-line comments, give the same result |
| ProtoRoundTrip.CommentLinesDoNotMatter | proto-file-reader/src/proto_tokens_reader.rs:78-88 | Adding a whole-line comment anywhere changes nothing |
| ProtoRoundTrip.IndentedCommentsDoNotMatter | proto-file-reader/src/proto_tokens_reader.rs:80-83 | The same for two slashes after any white space |
| ProtoRoundTrip.OtherTokensOutsideDoNotMatter | proto-file-reader/src/proto_file_reader.rs:75-83 | Outside a service or rpc header any tokens but service and rpc can be added |
| ProtoRoundTrip.RpcIsRead | proto-file-reader/src/proto_file_reader.rs:84-142 | Reading an rpc adds its entry and nothing of the rpc before it: the stray semicolon left in the output text never reaches a later entry |
| ProtoRoundTrip.RpcReadsBackExactly | proto-file-reader/src/proto_file_reader.rs:108-142 | An rpc reads back to its name and both parameters if and only if its types avoid the words stream and (for outputs) returns |
| ProtoRoundTrip.KeywordTypesAreLost | proto-file-reader/src/param_type.rs:15-28 | Instances: a type called stream and an output type called returns leave nothing to parse, and a streamed google.protobuf.Empty comes back as the plain unit type |
| ProtoRoundTrip.RpcsAreRead | proto-file-reader/src/proto_file_reader.rs:70-149 | A sequence of rpcs adds their entries in order, without Ping, and returns to the outside state |
| ProtoRoundTrip.EntriesReadAsDeclared | proto-file-reader/src/proto_file_reader.rs:128-134 | The entries read as the rpcs other than Ping, in order, if and only if these avoid the keywords |
| ProtoRoundTrip.ServiceReadsBack | proto-file-reader/src/proto_file_reader.rs:47-159 | Round trip on tokens: name and rpc list minus Ping come back if and only if the kept rpcs avoid the keywords |
| ProtoRoundTrip.PrintedServiceReadsBack | proto-file-reader/src/proto_file_reader.rs:47-159 | Round trip on files, for every layout and commenting of the printed service |
| ProtoRoundTrip.PrintedLineReadsBack | proto-file-reader/src/proto_file_reader.rs:47-159 | Such a layout always exists: the service printed on one line reads back |
| SnakeCase.IntoSnakeCase | proto-file-reader/src/proto_file_reader.rs:170-186 | The loop computes the snake-case specification for any case tables |
| SnakeCase.SnakeGrowsCharacterByCharacter | proto-file-reader/src/proto_file_reader.rs:173-183 | For any case tables, each further character adds an underscore and its lower case form if it is upper case, and itself otherwise |
| SnakeCase.CamelUndoesSnake | proto-file-reader/src/proto_file_reader.rs:170-186 | Camel-casing undoes snake-casing on underscore-free ASCII names that do not start in lower case |
| SnakeCase.NameIsRecoveredExactly | proto-file-reader/src/proto_file_reader.rs:170-186 | An ASCII name is recovered if and only if it has no underscore and does not start in lower case |
| SnakeCase.NamesCollideExactly | proto-file-reader/src/proto_file_reader.rs:170-186 | Two ASCII names get the same generated name if and only if they are the same once the first letter is put in upper case and every later underscore with a lower case letter is written as that letter in upper case |
| SnakeCase.DistinctNamesStayDistinct | proto-file-reader/src/proto_file_reader.rs:170-186 | Distinct underscore-free ASCII names that do not start in lower case never collide |
| SnakeCase.OtherNamesCollide | proto-file-reader/src/proto_file_reader.rs:170-186 | Instances: Get and get collide, AB and A_b collide, A_ and B_ do not |
| SnakeCase.SnakeIsIdempotent | proto-file-reader/src/proto_file_reader.rs:170-186 | Snake-casing twice is snake-casing once, on ASCII |
| SnakeCase.SnakeLength | proto-file-reader/src/proto_file_reader.rs:174-182 | A name grows by exactly the number of upper case letters after its first character |
| TelemetryIds.ParseChecked | my-grpc-extensions/src/grpc_server_telemetry_context.rs:81-81 | Digit-by-digit parsing with overflow checks in 64 bits, downwards for negative numbers, accepts exactly the decimal numerals whose value fits |
| TelemetryIds.PrintedNumberIsAcceptedExactlyInRange | my-grpc-extensions/src/grpc_server_telemetry_context.rs:92-92 | A printed number is accepted if and only if it is a signed 64-bit number, and as itself, at both ends of the range |
| TelemetryIds.NumeralsAreDecimal | my-grpc-extensions/src/grpc_server_telemetry_context.rs:81-81 | Numerals are decimal, with an optional plus or minus |
| TelemetryIds.OtherTextsAreNoNumerals | my-grpc-extensions/src/grpc_server_telemetry_context.rs:81-81 | A text with any other byte, and a sign alone, is no numeral |
| TelemetryIds.SixtyFourBits | my-grpc-extensions/src/grpc_server_telemetry_context.rs:81-81 | Accepted exactly between -9223372036854775808 and 9223372036854775807 |
| TelemetryIds.BadPieceIsSkipped | my-grpc-extensions/src/grpc_server_telemetry_context.rs:80-84 | In a list of ids a piece that is no id is skipped and the ids before and after it are kept |
| TelemetryIds.UnreadableHeaderIsEmpty | my-grpc-extensions/src/grpc_server_telemetry_context.rs:75-107 | No header, a header that is no text and a lone piece that is no id give the empty context |
| TelemetryIds.HeaderOfTwoIds | my-grpc-extensions/src/grpc_client_interceptor.rs:13-33 | Headers byte by byte: two ids, an empty list, no context |
| TelemetryIds.ToString | my-grpc-extensions/src/grpc_client_interceptor.rs:13-33 | The header is the printed ids joined by commas, none for the empty context |
| TelemetryIds.HasMultipleIds | my-grpc-extensions/src/grpc_server_telemetry_context.rs:110-118 | True exactly when there is a comma |
| TelemetryIds.GetTelemetry | my-grpc-extensions/src/grpc_server_telemetry_context.rs:70-108 | The context is the decoding of the header: invalid UTF-8 and unparsable single ids give the empty context, unparsable pieces of a list are skipped |
| TelemetryIds.DecodeEncode | my-grpc-extensions/src/grpc_client_interceptor.rs:13-33 | Reading what the interceptor wrote gives the normal form of the context, for every context of 64-bit ids |
| ServerStreams.SendFromIterator | my-grpc-extensions/src/grpc_server_streams.rs:134-153 | Under any send outcomes the items sent are a prefix of the mapped source; all if no send fails, and nothing is attempted after the first failure |
| ServerStreams.SendHashMap | my-grpc-extensions/src/grpc_server_streams.rs:331-353 | The same for a hash map in any iteration order |
| ServerStreams.SendFullChunks | my-grpc-extensions/src/grpc_server_streams.rs:248-279 | The loop sends the full chunks in order and leaves the rest in the buffer; after a failed send the buffer has just been swapped empty, so nothing is left to attempt |
| ServerStreams.SendVecByChunks | my-grpc-extensions/src/grpc_server_streams.rs:245-298 | The chunks sent are a prefix of the canonical chunking of the mapped source with size max(1, chunk size), all of it if no send fails, and nothing is attempted after the first failure |
| ServerStreams.ChunksAreConsecutive | my-grpc-extensions/src/grpc_server_streams.rs:250-259 | The canonical chunks concatenate to the mapped source, all but the last have full size and the last is not empty |
| ServerStreams.ChunkCount | my-grpc-extensions/src/grpc_server_streams.rs:250-259 | There are ceil(n / k) of them |
| StreamCollectors.AsVec | my-grpc-extensions/src/read_grpc_stream.rs:10-31 | Ok exactly if every wait brings an item, then with all of them in order; otherwise the status or timeout of the first wait that brings none: never a partial Ok |
| StreamCollectors.AsMap | my-grpc-extensions/src/read_grpc_stream.rs:33-87 | Ok exactly if every wait brings an item, then with the keys of the items, each with the value of the last item that has it; otherwise the status or timeout of the first wait that brings none |
| StreamCollectors.MapHoldsTheLastWrites | my-grpc-extensions/src/read_grpc_stream.rs:47-51 | That map has exactly the keys of the pairs, each with the value of the last pair that has it |
| StreamCollectors.CollectedMapIsTheSentMap | my-grpc-extensions/src/read_grpc_stream.rs:33-59 | Map round trip: for every map, every iteration order and every key extractor that undoes the mapping, collecting a fully sent map gives it back |
| StreamEndToEnd.InvPreserved | my-grpc-extensions/src/grpc_server_streams.rs:127-153 | Every step of the feeding job, the transport and the client keeps: collected, on the wire and queued, in this order, are the image of the items sent so far |
| StreamEndToEnd.CollectedVectorIsAPrefixImage | my-grpc-extensions/src/read_grpc_stream.rs:10-31 | If the collector returns Ok its vector is the image of a prefix of the source, of all of it if and only if no server send failed; the channel never holds more than 100 items |
| StreamEndToEnd.ShortSourcesArriveWhole | my-grpc-extensions/src/grpc_server_streams.rs:127-129 | A source of at most 100 items arrives whole whenever the collector succeeds |
| StreamEndToEnd.PartialSuccessExists | my-grpc-extensions/src/grpc_server_streams.rs:141-146 | For every source longer than the channel some run has a timed-out send and a client that is told Ok with a proper prefix |
| StreamEndToEnd.PartialSuccessExactlyForLongSources | my-grpc-extensions/src/grpc_server_streams.rs:127-153 | The client can be told Ok with a part of the source if and only if the source is longer than the channel |
| ResponseWriter.InvPreserved | my-grpc-extensions/src/streamed_response_writer.rs:27-112 | Every step of the writer, of any number of producers and of the reader keeps the log, the queue and each sender's own history in agreement |
| ResponseWriter.InOrderPreserved | my-grpc-extensions/src/streamed_response_writer.rs:93-104 | What a sender got through stays in the order it asked for it |
| ResponseWriter.ReceivedIsPrefixOfAMerge | my-grpc-extensions/src/streamed_response_writer.rs:41-112 | The received stream is always a prefix of a merge of the senders' successfully sent items that keeps each sender's own order |
| ResponseWriter.HandedOutProducerLivesExactlyUntilDropped | my-grpc-extensions/src/streamed_response_writer.rs:41-46 | Over every run a producer handed out stays alive, and the stream does not end, exactly until it is dropped itself |
| ResponseWriter.EndIsCompleteAndFinal | my-grpc-extensions/src/streamed_response_writer.rs:48-84 | The stream ends only after the result was taken, every producer was dropped and everything sent was received; then nothing can be sent any more |
| ChannelSafety.InvPreserved | my-grpc-extensions/src/grpc_channel/grpc_channel_holder.rs:28-58 | Every step of any number of request jobs and the ping loop keeps: each connection is in the holder history once or with the one job about to store it, what left the holder is not in it, and no job uses a channel it dropped |
| ChannelSafety.ChannelsDoNotReturn | my-grpc-extensions/src/grpc_channel/grpc_channel_holder.rs:28-58 | Every connection made enters the holder exactly once (or its one job is about to store it), and a channel that was dropped or overwritten is never in the holder again, whatever runs |
| ChannelSafety.RetryAvoidsTheFailedChannel | my-grpc-extensions/src/grpc_channel/grpc_channel.rs:81-100 | Over every run that follows a timed-out call or the status Unknown, the job that made the call never runs a call on that channel again |
| ChannelSafety.FailedPingDropsItsChannel | my-grpc-extensions/src/grpc_channel/grpc_channel_pool.rs:204-218 | A ping that fails drops the channel it failed on and never runs on it again |
| ChannelSafety.SuccessIsFinal | my-grpc-extensions/src/grpc_channel/request_builder_with_retries.rs:47-48 | A request whose call succeeded is done, and with success, over every later run |
| ChannelSafety.AttemptGivesUpAfterFiveConnects | my-grpc-extensions/src/grpc_channel/grpc_channel_holder.rs:196-262 | However other jobs interleave, a lookup that finds no channel gives its attempt up exactly after the fifth connect that fails |
| ChannelSafety.AttemptsAreBounded | my-grpc-extensions/src/grpc_channel/grpc_channel_holder.rs:227-262 | In every reachable state at most 5 connects per attempt, and a request has failed exactly when max(1, R) attempts have failed |
| ChannelSafety.NoConnectionBeforeGetChannel | my-grpc-extensions/src/grpc_channel/grpc_channel_pool.rs:173-177 | Nothing connects before the first get_channel, not even the ping loop |
| ChannelSafety.RetryReusesChannelExactlyIfKept | my-grpc-extensions/src/grpc_channel/grpc_channel.rs:81-100 | After a failure that keeps the channel, over every run of all jobs, the next lookup gives the same channel if and only if the holder had it and nobody stored a channel or emptied the holder since |
| ChannelSafety.HeldExactlyWhileLeftAlone | my-grpc-extensions/src/grpc_channel/grpc_channel_holder.rs:28-47 | Over every run a held channel is still held at the end if and only if no job stored a channel or emptied the holder in it |
| ChannelSafety.DropHitsTheFailedChannelExactlyIfUndisturbed | my-grpc-extensions/src/grpc_channel/grpc_channel_holder.rs:43-47 | Emptying the holder after a failed call removes the channel the call failed on if and only if nothing was stored or taken between the moment the job got the channel and the drop |
| ChannelSafety.HealthyChannelCanBeDropped | my-grpc-extensions/src/grpc_channel/grpc_channel_pool.rs:204-218 | A run in which a channel is dropped on which no call of any job failed in any way |
| GrpcRequests.CreateChannel | my-grpc-extensions/src/grpc_channel/grpc_channel_holder.rs:196-262 | At most five tries, the first success wins and goes into the holder, otherwise the last error; at most 5T |
| GrpcRequests.GetChannel | my-grpc-extensions/src/grpc_channel/grpc_channel.rs:55-75 | The channel found in the holder, and then nothing connects; otherwise a new one |
| GrpcRequests.Execute | my-grpc-extensions/src/grpc_channel/grpc_channel.rs:132-167 | One attempt: which channel the call runs on; a finished call returns its value, a failed one its status, a timed-out one Timeout; the holder is emptied exactly on a timeout or status 2 (Unknown) and otherwise keeps what other jobs made of it during the call; at most 6T |
| GrpcRequests.GetResponse | my-grpc-extensions/src/grpc_channel/request_builder_with_retries.rs:40-56 | For any outcomes between 1 and max(1, R) attempts, the first success or else the last error, Ok exactly if the last call made finished and then with its value, at most 5 connects per attempt, and at most 6T max(1, R) |

## Left out

- StreamedRequestInner.Sender.Send: waiting for capacity is not visible in the object model, where a send is one call; the state machine has it as steps.
- StreamedRequestProgress.EveryMaximalRunDelivers: one producer and one consumer that keeps reading, because the drop of any producer ends the stream for all and a rebind revives it.
- StreamCollectors.AsMap: one loop for `as_hash_map` and `as_b_tree_map`, which differ only in the map type; the order of a b-tree map is not modelled.
- ServerStreams.SendFromIterator: sources are finite sequences, not endless iterators.
- SnakeCase.IntoSnakeCase: the Unicode case tables are a parameter of which only the ASCII part is fixed.
- ResponseWriter, StreamEndToEnd, ChannelSafety and StreamedRequestProtocol: jobs that interleave are states and steps on values; the sequential code of the same files is in methods where there is any (`ServerStreams`, `StreamCollectors`, `GrpcRequests`, `StreamedRequestInner`), so updates in place during interleaving are not modelled.
- The panics of `StreamedResponseWriter.send` and `send_error` on a failed send: an event like a producer's failed send.
- The arity and content of error values beyond timeout, transport error and status code.
- Fairness of the mutex and of the scheduler: progress is stated for maximal runs.
- Cancelling a future in the middle of `send` or `set_sender`: every future runs to completion.
- Connecting over unix sockets, SSH port forwarding, TLS and building addresses: a connection attempt is an outcome that yields a fresh channel.
- Looking settings up and taking locks takes no time in the time bounds.
- Reading the file: the proto model starts from lines without newline bytes.
- Rpcs with an options block `{ }`: the code does not end an rpc there, so the round trip is for the `;` form of the Protocol Buffers proto3 language specification, section "Service definition".
- The generated code of both macro crates, `find_stream_name`, telemetry injection into bodies and telemetry reporting on drop.
- `GrpcConnectUrl` and `extract_domain_name`: they classify and cut the address text, and an address only picks the kind of connection, which is an outcome here.
- `StreamedRequestReader` and the item-wise reads of `StreamedResponse`: the collecting loop on the server side and its set and single-item forms, which report a timeout as a status instead of an error kind of its own; the other methods of `StreamedResponse` call the collectors modelled here.
- `GrpcServerStreamResult`: one sender of a channel of 32768 items with a timeout per send; a response writer with a single producer is the modelled form.
- `send_vec_to_stream`, which calls `send_from_iterator_with_transformation`; `as_vec_with_transformation_and_filter`, the `as_vec` loop with a skip; `first_or_none`, one turn of it.
- Logging and printing.
