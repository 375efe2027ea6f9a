# Realtime transcript assembly of the AssemblyAI C# SDK sample

This project models two small pieces of deterministic logic of the AssemblyAI
C# SDK and its Avalonia microphone sample, and proves what they promise.

- The **microphone view model** (`TranscribeMicrophoneViewModel`). It keeps a
  sorted dictionary from word start offset (ms) to word text. Partial and final
  transcript events write their words into it. A partial event whose text is
  empty is ignored. After each write the dictionary is rendered: values in
  ascending key order, each followed by one space. A status observer maps the
  transcriber's four statuses onto four boolean flags. A close handler treats
  close code 1000 (Normal Closure, section 7.4.1 of RFC 6455) as no error and
  turns any other code into the text `Socket closed with code <code>: <reason>`.
- The **realtime client's convenience overloads** (`RealtimeClient`).
  `CreateTranscriber(options)` copies the client's API key into the options
  when they carry neither a token nor an API key, and then builds the
  transcriber from that same options object. `CreateTranscriber()` does the
  same with fresh default options. `CreateTemporaryTokenAsync(int)` builds the
  request parameters with `ExpiresIn` set to its argument.

Files:

- `common.dfy`: module `Common`, with `Option` (a nullable C# reference) and `Int32` (C#'s `int`).
- `formatting.dfy`: module `Formatting`, how C# string interpolation writes an `int`, with a parser and a round-trip proof.
- `transcript.dfy`: module `TranscriptAssembly`, the buffer as `map<Int32, string>`.
  It holds the update function `ApplyWords`, the rendering `Render` and the rendering loop `RenderBuffer`, and their lemmas.
- `view_model.dfy`: module `ViewModels`, with the class `TranscribeMicrophoneViewModel`.
  Its fields are the buffer, the transcript, the error and the four flags, and its methods are the event handlers.
  The module also holds the status-to-flags mapping and the close-error rule.
- `realtime_client.dfy`: module `Realtime`, the options and transcriber classes and `RealtimeClient`.

`Render` walks the keys by repeatedly taking the least remaining one, which is
the order in which the sorted dictionary enumerates its values. `RenderInAscendingKeyOrder`
shows that this is the same as concatenating `word + " "` over any strictly
ascending listing of the keys. `RenderBuffer` is the `StringBuilder` loop,
proved to produce `Render` of the buffer.

Both handlers write `buffer[start] = text` unconditionally, so a later
partial word at an offset replaces a final word there. `ApplyWords` is the
same for partial and final updates. The only difference between the two
handlers is the empty-text guard on partial updates.

## Model

| member | source | states |
|---|---|---|
| `Formatting.NatToDecimal` | Samples/Avalonia/Sample/ViewModels/TranscribeMicrophoneViewModel.cs:131 | a natural number is written as a non-empty string of decimal digits with no leading zero |
| `Formatting.IntToDecimal` | Samples/Avalonia/Sample/ViewModels/TranscribeMicrophoneViewModel.cs:131 | the close code is written as a decimal numeral, starting with '-' exactly when the code is negative |
| `Formatting.NatToDecimalRoundTrip` | Samples/Avalonia/Sample/ViewModels/TranscribeMicrophoneViewModel.cs:131 | reading the digits back gives the number |
| `Formatting.IntToDecimalRoundTrip` | Samples/Avalonia/Sample/ViewModels/TranscribeMicrophoneViewModel.cs:131 | parsing the written code gives the code back |
| `Formatting.IntToDecimalInjective` | Samples/Avalonia/Sample/ViewModels/TranscribeMicrophoneViewModel.cs:131 | different codes are written differently |
| `TranscriptAssembly.ApplyWords` | Samples/Avalonia/Sample/ViewModels/TranscribeMicrophoneViewModel.cs:137-140 | writes `w.text` at `w.start` for each word, first to last (the same loop is at 147-150); no key is removed and the last word always lands |
| `TranscriptAssembly.StartsOfSnoc` | Samples/Avalonia/Sample/ViewModels/TranscribeMicrophoneViewModel.cs:137-140 | the offsets of an update are those of its first n-1 words plus the offset of its last word |
| `TranscriptAssembly.ApplyWordsKeys` | Samples/Avalonia/Sample/ViewModels/TranscribeMicrophoneViewModel.cs:137-140 | after an update the buffer's keys are the old keys plus the update's start offsets |
| `TranscriptAssembly.ApplyWordsLastWins` | Samples/Avalonia/Sample/ViewModels/TranscribeMicrophoneViewModel.cs:137-140 | at each start offset of an update the buffer holds the text of the last word of the update with that offset |
| `TranscriptAssembly.ApplyWordsKeepsOthers` | Samples/Avalonia/Sample/ViewModels/TranscribeMicrophoneViewModel.cs:147-150 | keys the update does not mention keep their old text |
| `TranscriptAssembly.WriteCommutesWithUpdate` | Samples/Avalonia/Sample/ViewModels/TranscribeMicrophoneViewModel.cs:139 | writing a key that an update does not touch can be done before or after the update with the same result |
| `TranscriptAssembly.DisjointUpdatesCommute` | Samples/Avalonia/Sample/ViewModels/TranscribeMicrophoneViewModel.cs:134-163 | two updates with disjoint start offsets give the same buffer and the same transcript in either arrival order |
| `TranscriptAssembly.MinKey` | Samples/Avalonia/Sample/ViewModels/TranscribeMicrophoneViewModel.cs:158 | the key the sorted dictionary yields first is in the set and below every other key |
| `TranscriptAssembly.Render` | Samples/Avalonia/Sample/ViewModels/TranscribeMicrophoneViewModel.cs:155-164 | the rendered transcript is empty exactly when the buffer is empty, and otherwise ends in a space |
| `TranscriptAssembly.RenderLeastFirst` | Samples/Avalonia/Sample/ViewModels/TranscribeMicrophoneViewModel.cs:158-161 | rendering part of the buffer starts with the word at its least key followed by a space |
| `TranscriptAssembly.RenderBuffer` | Samples/Avalonia/Sample/ViewModels/TranscribeMicrophoneViewModel.cs:157-163 | the builder loop over the values in key order produces exactly the rendered transcript |
| `TranscriptAssembly.ConcatOnSubmap` | Samples/Avalonia/Sample/ViewModels/TranscribeMicrophoneViewModel.cs:158-161 | concatenating words over some keys depends only on the texts at those keys |
| `TranscriptAssembly.RenderInAscendingKeyOrder` | Samples/Avalonia/Sample/ViewModels/TranscribeMicrophoneViewModel.cs:155-163 | for any strictly ascending listing of the buffer's keys, the transcript is the concatenation of each word followed by one space in that order |
| `TranscriptAssembly.ApplyOneWord` | Samples/Avalonia/Sample/ViewModels/TranscribeMicrophoneViewModel.cs:137-140 | a one-word update writes that word's text at its offset |
| `TranscriptAssembly.HelloWorldBuffer` | Samples/Avalonia/Sample/ViewModels/TranscribeMicrophoneViewModel.cs:134-153 | partial "Hello"@0, partial "world"@500, final "Hello,"@0 leave the buffer {0: "Hello,", 500: "world"} |
| `TranscriptAssembly.HelloWorldConcat` | Samples/Avalonia/Sample/ViewModels/TranscribeMicrophoneViewModel.cs:158-161 | the words at 0 and 500, each followed by a space, read "Hello, world " |
| `TranscriptAssembly.HelloWorldRender` | Samples/Avalonia/Sample/ViewModels/TranscribeMicrophoneViewModel.cs:155-164 | that buffer renders as "Hello, world " |
| `ViewModels.FlagsFor` | Samples/Avalonia/Sample/ViewModels/TranscribeMicrophoneViewModel.cs:85-113 | for every status exactly one flag is set, and it is the one matching the status |
| `ViewModels.StatusOf` | Samples/Avalonia/Sample/ViewModels/TranscribeMicrophoneViewModel.cs:40-72 | any flags with exactly one set are the flags of some status |
| `ViewModels.FlagsForRoundTrip` | Samples/Avalonia/Sample/ViewModels/TranscribeMicrophoneViewModel.cs:85-113 | the flags determine the status they were set for |
| `ViewModels.CloseMessage` | Samples/Avalonia/Sample/ViewModels/TranscribeMicrophoneViewModel.cs:131 | the error text is `Socket closed with code ` + the decimal code + `: ` + the reason |
| `ViewModels.CloseError` | Samples/Avalonia/Sample/ViewModels/TranscribeMicrophoneViewModel.cs:128-132 | a close reports no error exactly when its code is 1000, and otherwise reports the close message |
| `ViewModels.ColonEndsPrefix` | Samples/Avalonia/Sample/ViewModels/TranscribeMicrophoneViewModel.cs:131 | the ':' after the code is the first ':' after the message prefix |
| `ViewModels.SplitAtColon` | Samples/Avalonia/Sample/ViewModels/TranscribeMicrophoneViewModel.cs:131 | the code and the ": reason" part of the message can be split apart in only one way |
| `ViewModels.CloseMessageDeterminesClose` | Samples/Avalonia/Sample/ViewModels/TranscribeMicrophoneViewModel.cs:131 | the close message determines the close code and reason it was made from |
| `ViewModels.TranscribeMicrophoneViewModel.constructor` | Samples/Avalonia/Sample/ViewModels/TranscribeMicrophoneViewModel.cs:20-72 | a new view model has an empty buffer and no error, and only `IsDisconnected` is set |
| `ViewModels.TranscribeMicrophoneViewModel.OnStatusChanged` | Samples/Avalonia/Sample/ViewModels/TranscribeMicrophoneViewModel.cs:82-114 | after a status change the flags are those of the new status, exactly one is set, and nothing else changes |
| `ViewModels.TranscribeMicrophoneViewModel.OnErrorReceived` | Samples/Avalonia/Sample/ViewModels/TranscribeMicrophoneViewModel.cs:123-126 | an error event's text becomes the error, and nothing else changes |
| `ViewModels.TranscribeMicrophoneViewModel.OnClosed` | Samples/Avalonia/Sample/ViewModels/TranscribeMicrophoneViewModel.cs:128-132 | code 1000 leaves the error unchanged; any other code sets it to the close message |
| `ViewModels.TranscribeMicrophoneViewModel.StoreWords` | Samples/Avalonia/Sample/ViewModels/TranscribeMicrophoneViewModel.cs:137-140 | the loop writes every word of the update into the buffer, in order |
| `ViewModels.TranscribeMicrophoneViewModel.OnPartialTranscriptReceived` | Samples/Avalonia/Sample/ViewModels/TranscribeMicrophoneViewModel.cs:134-143 | empty text changes neither the buffer nor the transcript; otherwise the words are stored and the transcript is re-rendered |
| `ViewModels.TranscribeMicrophoneViewModel.OnFinalTranscriptReceived` | Samples/Avalonia/Sample/ViewModels/TranscribeMicrophoneViewModel.cs:145-153 | the words are always stored and the transcript always re-rendered, even with no words |
| `ViewModels.TranscribeMicrophoneViewModel.BuildTranscript` | Samples/Avalonia/Sample/ViewModels/TranscribeMicrophoneViewModel.cs:155-164 | the transcript becomes the rendering of the buffer, and the buffer is unchanged |
| `ViewModels.HelloWorldScenario` | Samples/Avalonia/Sample/ViewModels/TranscribeMicrophoneViewModel.cs:134-163 | on a new view model, partial "Hello"@0, partial "world"@500, final "Hello,"@0 give the transcript "Hello, world " |
| `Realtime.DefaultedApiKey` | src/AssemblyAI/Realtime/ExtendedRealtimeClient.cs:31-34 | with neither token nor key the key becomes the client's; a set token or a set key leaves the key as it was |
| `Realtime.DefaultedApiKeyIdempotent` | src/AssemblyAI/Realtime/ExtendedRealtimeClient.cs:29-38 | creating a second transcriber from the same options changes the key no further |
| `Realtime.RealtimeTranscriberOptions.constructor` | src/AssemblyAI/Realtime/ExtendedRealtimeClient.cs:22 | fresh options carry neither a token nor an API key |
| `Realtime.RealtimeTranscriber.constructor` | src/AssemblyAI/Realtime/ExtendedRealtimeClient.cs:36 | the transcriber keeps the options object it is given |
| `Realtime.RealtimeClient.TemporaryTokenParams` | src/AssemblyAI/Realtime/ExtendedRealtimeClient.cs:9-16 | the token request's `ExpiresIn` equals the argument |
| `Realtime.RealtimeClient.CreateTranscriber` | src/AssemblyAI/Realtime/ExtendedRealtimeClient.cs:29-38 | the key is defaulted as `DefaultedApiKey` says, the token is never modified, a set token leaves the options untouched, and the new transcriber holds the same options object |
| `Realtime.RealtimeClient.CreateDefaultTranscriber` | src/AssemblyAI/Realtime/ExtendedRealtimeClient.cs:22 | the transcriber holds freshly made options with no token and the client's API key |

## Left out

- Asynchronous orchestration is not modelled. This covers `StartAsync`, `StopAsync` and `DisposeAsync`: the audio-permission check, the temporary-token REST call, connect and close, and the lookups in the dependency container. They are I/O and foreign calls.
- `CaptureAudioOnOnAudioData` is not modelled. It only passes each audio frame on to the transcriber's `SendAudio`.
- The transcriber's own connection state machine is not modelled. `RealtimeTranscriber` is not part of this model. Only its status values, its events and the options object it is built from appear, as parameters of the handlers.
- The event subscriptions in the view model's constructor are not modelled. Each handler is a method that is called with the event's contents.
- The change notification of ReactiveUI (`RaiseAndSetIfChanged`) is not modelled; each property set is a plain field assignment. As a result the model does not show what an observer sees between the four flag assignments of one status change. Those intermediate states can have zero or two flags set.
- The initial placeholder text of the transcript is not modelled. The constructor takes it as a parameter, because only its replacement by the first rendering matters.
- A word's end offset and confidence, and the other fields of the event results, are not modelled. The view model reads only `Text`, `Words`, `Start` and each word's `Text`.
- The status switch has a `default` arm that throws. The status is modelled as a datatype with four values, so the match is total and that arm does not exist. A C# enum variable holding a value outside the four names would reach it; the model has no such value.
- `ViewModels.CloseMessage`: the close code is written as C#'s invariant culture writes it, with '-' as the minus sign and no digit grouping. A `null` reason is modelled as the empty string, which is what interpolation writes for it.
- `Realtime.RealtimeClient.TemporaryTokenParams`: the REST call that the overload forwards to is not modelled, and neither is its optional `RequestOptions` argument. The model returns the request parameters the overload builds.
- `Realtime.RealtimeTranscriberOptions.constructor`: the options class is not part of this model. Its constructor is assumed to leave both the token and the API key null. `Realtime.RealtimeClient.CreateDefaultTranscriber`'s promise that the key becomes the client's rests on this assumption.
- `Realtime.RealtimeTranscriber.constructor`: the transcriber class is not part of this model. The model assumes the transcriber keeps a reference to the options object it is given. The real class may instead copy the options into credential properties of its own, since the sample sets `Token` on the transcriber directly. In that case, changes made to the options after creation would not reach the transcriber.
- `Realtime.RealtimeTranscriberOptions` models only the token and the API key. Its other settings are not read by the code modelled here.
- src/AssemblyAI/Files/ExtendedFilesClient.cs is not part of this model: it wraps file-stream I/O.
- src/AssemblyAI/Transcripts/Types/TranscriptReadyNotification.cs and src/AssemblyAI/Realtime/Types/RealtimeBaseMessage.cs are not part of this model: they are JSON data types with no logic.
- src/AssemblyAI/Transcripts/Types/SeverityScoreSummary.cs is not part of this model: it is a record of floating-point numbers with no logic.
