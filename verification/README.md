# speak-to-translate: a Dafny model of the recorder core

speak-to-translate is a browser page. It streams microphone audio to a
real-time transcription service and shows the live transcript. It also sends
every finished sentence to a translation endpoint and shows the translation
beside it. This project models the sequential logic of that page in Dafny and
proves properties of the model. There are four modules:

- `AudioFramer` (`audio_framer.dfy`) models the audio worklet processor.
  - It holds a fixed buffer of 4096 slots and a cursor.
  - Samples arrive in blocks of any length.
  - Each time the buffer fills, the samples are clamped, scaled and stored
    into a 16-bit PCM frame, the frame is posted, and the cursor resets.
  - Samples are exact reals. The Int16Array store is written out step by step:
    truncation toward zero, then wrap-around modulo 2^16. The wrap is proved
    never to fire.
- `Reconciler` (`reconciler.dfy`) models the transcript handler and the
  translation relay.
  - The handler holds a committed baseline (`currentTranscript`) and owns the
    displayed `transcript` and the `translation`.
  - Partial, Final and other messages arrive one at a time.
  - Each Final's translation reply is an input.
  - A flag records whether React has unmounted the component after a render
    error. Once it is set, the handler keeps committing to its baseline and
    sending requests, but its state updates are dropped.
- `Persistence` (`persistence.dfy`) models localStorage as a map from key to
  string. It covers the load, save and remove operations that the component
  uses.
- `Lifecycle` (`lifecycle.dfy`) models the component as a whole:
  - the record toggle `handleRecord`, with start and stop;
  - `clearTranscripts`;
  - the mount and save effects;
  - the disabled record button;
  - delivery of messages to the handler of each open connection;
  - the component's unmounting after a render error.

  Every external step of start and stop is an outcome given as input: the
  token request, connect, microphone, audio context, worklet module, node
  creation, wiring and close. Resources are abstract identities. The model
  tracks which resources the refs hold and which are still open in the
  browser.

The model follows the code as written, including these behaviours a reader
may not expect:

- A start that fails after `rtService.connect()` returns leaves the connection
  open and `rt` set. The catch only logs. The stream and context refs are also
  left set when their steps completed. A later successful start overwrites
  `rt`. After that the component never closes the first connection
  (`FailedStartLeaksConnection`).
- Stop runs its teardown inside one `try`. The first step that throws skips
  every later step, so nodes stay connected and the stream and context stay
  open (`StopFailureSkipsTeardown`).
- The translation update `prev => prev + ' ' + data.translation.text` reads the
  reply body only when React runs the updater, which is outside the handler's
  `try`. The endpoint's error body `{ error }` has no `translation`. React's
  first, eager run of the updater discards the TypeError, but the run during
  rendering throws it again. The component is then unmounted
  (`ErrorBodyUnmountsComponent`). The Final's transcript was already shown
  and saved, and the translation stays as it was. See "## Findings".
- A body whose `translation` object has no `text` appends the string
  " undefined", by JavaScript's string conversion. Only a thrown request or a
  thrown JSON decoding is caught and leaves the translation unchanged.

Each handler captures the transcript at the moment its service was created. So
`clearTranscripts` during a session brings the old text back with the next
Final (`ClearThenFinalRestoresBaseline`).

## Model

| member | source | states |
|---|---|---|
| AudioFramer.Clamp | public/audioProcessor.js:22 | The result lies in [-1, 1]. It equals the input inside that interval and saturates to the nearer bound outside it. |
| AudioFramer.Truncate | public/audioProcessor.js:23 | Conversion to an integer truncates toward zero. The result is within one of the input, on the zero side. |
| AudioFramer.WrapInt16 | public/audioProcessor.js:23 | The Int16Array store gives a value in [-32768, 32767] that is congruent to its input modulo 65536. It is the identity on that range. |
| AudioFramer.Scale | public/audioProcessor.js:23 | Negatives are scaled by 32768 and the rest by 32767, so [-1, 1] lands in [-32768, 32767]. -1 goes to -32768 and 1 to 32767, and the sign and zero are kept. |
| AudioFramer.ToPcm16 | public/audioProcessor.js:22-23 | Every quantized sample lies in [-32768, 32767]. |
| AudioFramer.ToPcm16Exact | public/audioProcessor.js:22-23 | The wrap never fires. The stored value is the scaled sample truncated toward zero, less than one step from the exact value: floor(32767·x) for x in [0, 1] and -floor(32768·(-x)) for x in [-1, 0). Inputs above 1 give 32767 and inputs below -1 give -32768. |
| AudioFramer.ToPcm16FixedPoints | public/audioProcessor.js:22-23 | 1.0 maps to 32767, -1.0 to -32768 and 0.0 to 0. |
| AudioFramer.ToPcm16Monotonic | public/audioProcessor.js:22-23 | A larger sample never quantizes to a smaller value. Negative samples give non-positive values and non-negative samples give non-negative values. |
| AudioFramer.QuantizeFrame | public/audioProcessor.js:20-24 | A quantized buffer has the buffer's length and every entry is in PCM range. |
| AudioFramer.QuantizeFrameAppend | public/audioProcessor.js:21-24 | Quantization works sample by sample, so it distributes over concatenation. |
| AudioFramer.QuantizeBuffer | public/audioProcessor.js:20-24 | The fill loop of the Int16Array computes the slot-wise quantization of the buffer. |
| AudioFramer.Init | public/audioProcessor.js:2-7 | A new processor is in a valid state with nothing pending. |
| AudioFramer.Push | public/audioProcessor.js:16-28 | When the cursor is below 4095, storing a sample emits nothing and appends the sample to the pending samples. When the cursor is at 4095, it emits exactly the quantization of the pending samples plus the new one and leaves nothing pending. The cursor stays inside the buffer. |
| AudioFramer.Feed | public/audioProcessor.js:15-29 | Between calls the cursor satisfies 0 <= bufferIndex < 4096. |
| AudioFramer.FirstChannel | public/audioProcessor.js:10-13 | The samples taken are the first channel of the first input. There are none exactly when that input has no channel or an empty one. |
| AudioFramer.Process | public/audioProcessor.js:9-33 | `process` keeps the cursor in range. It posts the frames of the sample-by-sample fill of the first channel, each of exactly 4096 samples. A missing or empty channel changes nothing and posts nothing. It always returns true. |
| AudioFramer.Frames | public/audioProcessor.js:19-27 | The reference chunking of a stream s yields len(s) div 4096 frames, each of 4096 samples. |
| AudioFramer.FramesSnoc | public/audioProcessor.js:19-27 | One more sample adds a frame exactly when it completes a chunk of 4096. That frame is the quantization of the last 4096 samples. |
| AudioFramer.PushSpec | public/audioProcessor.js:16-28 | Suppose the cursor and pending samples describe a stream. After one store, they describe the stream extended by that sample, and the frames emitted are the chunks that the longer stream adds. |
| AudioFramer.FeedSpec | public/audioProcessor.js:15-28 | Say `all` is the pending samples followed by the fed samples. Feeding posts exactly the quantized 4096-chunks of `all`, in order. It leaves the cursor at len(all) mod 4096 and keeps the unfinished tail of `all` pending. Nothing is lost, duplicated or reordered. |
| AudioFramer.FeedFrameLength | public/audioProcessor.js:19-21 | Every posted frame has exactly 4096 samples. |
| AudioFramer.FeedAppend | public/audioProcessor.js:15-29 | Feeding a then b ends in the same state, with the same frames, as feeding a ++ b. Block boundaries do not matter. |
| AudioFramer.FeedBlocks | public/audioProcessor.js:9-33 | Successive `process` calls keep the processor valid. |
| AudioFramer.FeedBlocksIsFeed | public/audioProcessor.js:9-33 | However a stream is split into blocks, successive calls end exactly as one call on the whole stream. |
| AudioFramer.FlattenFrames | public/audioProcessor.js:21-26 | Laid end to end, the frames of a stream are the quantization of its first 4096·k samples in arrival order, where k is the number of frames. |
| AudioFramer.FramerFromStart | public/audioProcessor.js:2-33 | Start from a new processor and push blocks totalling n samples, split in any way. The processor posts n div 4096 frames of 4096 samples and leaves the cursor at n mod 4096. The frames together are the quantized first 4096·(n div 4096) samples. |
| Reconciler.Relay | components/Recorder.tsx:160-164 | The translation update throws exactly when the body is an error body without `translation`. Otherwise the translation only grows, and it stays unchanged exactly when the request or its decoding threw. |
| Reconciler.RelayIntended | components/Recorder.tsx:149-164 | The relay as its `try`/`catch` is meant: the translation only grows, and it stays unchanged exactly when the reply is an error body or the request threw. |
| Reconciler.OnEvent | components/Recorder.tsx:139-166 | The baseline and the translation only grow. The component becomes unmounted exactly when it already was or the event is a Final with an error body. Once unmounted, the texts no longer change. Other message types change nothing. After a Partial or a Final on a mounted component, the display starts with the baseline. A Final issues exactly one request and anything else issues none. |
| Reconciler.PartialShowsWithoutCommitting | components/Recorder.tsx:140-142 | A Partial leaves the baseline and the translation unchanged and issues no request. While the component is mounted, it shows baseline + " " + text. |
| Reconciler.FinalCommitsAndRequests | components/Recorder.tsx:143-164 | A Final sets the baseline to old + " " + text and issues one request with the text and the selected language. While mounted, the display becomes exactly the new baseline. A successful reply appends " " + translated text. A thrown request leaves the translation and the mounted state unchanged. An error body unmounts the component with the translation unchanged. The transcript does not depend on the reply. |
| Reconciler.ErrorBodyUnmounts | components/Recorder.tsx:160-164 | On a mounted component, a Final whose reply is an error body unmounts it. The intended relay would keep both the translation and the component. For every other reply, the component stays mounted and its translation is what the intended relay gives. |
| Reconciler.Run | components/Recorder.tsx:137-166 | Over any event sequence, the baseline and the translation are append-only. Once unmounted, the component stays unmounted and its texts are frozen. |
| Reconciler.RunCommits | components/Recorder.tsx:137-146 | After any events, the baseline is the old one followed by " " + text for each Final, in order, whether or not the component is mounted. |
| Reconciler.RunRequests | components/Recorder.tsx:143-159 | The requests issued are exactly one per Final, with its text and language, in order, whether or not the component is mounted. |
| Reconciler.RunUnmounts | components/Recorder.tsx:143-164 | After any events, the component is unmounted exactly when it already was or some Final got an error body. |
| Reconciler.RunRelays | components/Recorder.tsx:160-164 | On a mounted component, the translation grows by exactly what the replies to the Finals add, in order, up to the first error body. An unmounted component's translation does not change. |
| Reconciler.OnlyFinalsCommit | components/Recorder.tsx:137-146 | If every non-Final event is dropped, the baseline, the requests, the translation and the unmounting stay the same. No Partial text survives in the baseline. |
| Reconciler.DisplayExtendsBaseline | components/Recorder.tsx:137-146 | If the display starts with the baseline, it still does after any events, as long as the component stays mounted. |
| Reconciler.LastEventDecidesDisplay | components/Recorder.tsx:140-146 | On a mounted component, a final Partial leaves the display as the baseline plus that Partial's text. A final Final leaves it as exactly the baseline. |
| Reconciler.PartialsThenFinal | components/Recorder.tsx:137-164 | Two Partials and then a Final commit only the Final's text and issue one request. The translation is the intended relay's, and the component unmounts exactly on an error body. |
| Persistence.Load | components/Recorder.tsx:25-30 | A loaded value is non-empty exactly when the key holds a non-empty value, and then it is that value. |
| Persistence.Save | components/Recorder.tsx:33-39 | Only a non-empty value is written, and no other key changes. |
| Persistence.Remove | components/Recorder.tsx:65-66 | The key is gone and no other key changes. |
| Persistence.LoadAfterSave | components/Recorder.tsx:25-39 | Reading back a saved non-empty value gives that value. Saving an empty value leaves what loads unchanged. |
| Lifecycle.Mount | components/Recorder.tsx:24-30 | A mounted component holds and opens nothing, and it is well formed. Each text is loaded exactly when its saved value is non-empty. |
| Lifecycle.ClearTranscripts | components/Recorder.tsx:62-67 | Both texts become empty and both keys are removed, so a reload shows empty fields. Nothing else changes. |
| Lifecycle.Setup | components/Recorder.tsx:172-211 | The setup chain reports success exactly when no step threw. |
| Lifecycle.SetupSteps | components/Recorder.tsx:172-199 | Each ref, and the resource it holds, is set to the new identity exactly when the step that produces it returned. Otherwise it is left as it was. A new connection is registered with the given baseline. |
| Lifecycle.Start | components/Recorder.tsx:107-218 | `isInitializing` is false once start finishes. `isRecording` becomes true only when the token and every step succeed. A token failure changes nothing and creates no RealtimeService. Otherwise exactly one service is created. |
| Lifecycle.StartConnects | components/Recorder.tsx:134-173 | `rt` is set to the new service exactly when connect returned. That service's connection is then open with the current transcript as its baseline. Otherwise `rt` and the connections are unchanged. |
| Lifecycle.StartAcquiresStream | components/Recorder.tsx:176-184 | The stream ref is set, and the stream is open, exactly when getUserMedia returned. A later failure does not undo it. |
| Lifecycle.StartCreatesContext | components/Recorder.tsx:186-190 | The context ref is set, and the context is open, exactly when the context was created. A later failure does not undo it. |
| Lifecycle.StartBuildsNodes | components/Recorder.tsx:193-199 | The source and worklet refs are set exactly when the steps that create them completed. |
| Lifecycle.Teardown | components/Recorder.tsx:78-106 | Teardown only clears refs and never opens anything. If every ref pointed at an open resource, the refs left still do. When no step throws, every ref is cleared. |
| Lifecycle.TeardownDisconnects | components/Recorder.tsx:78-93 | `rt` is cleared, and its connection closed, exactly when stop gets past the close. Each node ref is cleared exactly when stop gets past its disconnect. |
| Lifecycle.TeardownReleasesMedia | components/Recorder.tsx:95-106 | The stream and context refs are cleared, and their resources stopped or closed, exactly when stop gets past their steps. |
| Lifecycle.Stop | components/Recorder.tsx:75-106 | Stop always clears `isRecording` and never touches the texts. |
| Lifecycle.StopClosesConnection | components/Recorder.tsx:78-83 | Stop clears `rt` and closes its connection exactly when the close did not throw. |
| Lifecycle.StopDisconnectsNodes | components/Recorder.tsx:85-93 | A node ref is cleared exactly when no earlier step threw and its own disconnect did not throw. |
| Lifecycle.StopStopsTracks | components/Recorder.tsx:95-98 | The stream's tracks stop, and its ref is cleared, exactly when stop gets past their step. |
| Lifecycle.StopClosesContext | components/Recorder.tsx:100-103 | The audio context closes, and its ref is cleared, exactly when stop gets past every earlier step and the close does not throw. |
| Lifecycle.HandleRecord | components/Recorder.tsx:69-220 | Nothing changes before the script has loaded. Otherwise it toggles, and it ends recording exactly when it was idle and the start succeeded. The texts are never touched. |
| Lifecycle.Click | components/Recorder.tsx:265-267 | The button does nothing while initializing, before the script has loaded, or once the component is unmounted. Otherwise it runs `handleRecord`. |
| Lifecycle.Deliver | components/Recorder.tsx:139-166 | A message runs the handler of its own connection against that connection's baseline, and a closed connection delivers nothing. The open connections stay the same and baselines only grow. A Final issues one request and anything else issues none. The component unmounts exactly on a Final with an error body. An unmounted component's texts and storage do not change. |
| Lifecycle.Step | components/Recorder.tsx:25-267 | Only messages issue requests, and only a Final with an error body unmounts the component. Once it is unmounted, no input changes its texts, storage, refs or recording flag. |
| Lifecycle.RunInputs | components/Recorder.tsx:25-267 | After any inputs, an unmounted component is still unmounted, with the same texts, storage, refs and recording flag. |
| Lifecycle.StartPreservesWf | components/Recorder.tsx:107-218 | Start keeps the component well formed: every ref points at an open resource, recording implies every ref is set, and storage matches the texts. |
| Lifecycle.StopPreservesWf | components/Recorder.tsx:75-106 | Stop keeps the component well formed. |
| Lifecycle.DeliverPreservesWf | components/Recorder.tsx:32-39 | The save effects keep storage in step with the texts after each message. |
| Lifecycle.RunPreservesWf | components/Recorder.tsx:24-39 | Any sequence of inputs keeps the component well formed. |
| Lifecycle.ReloadShowsTexts | components/Recorder.tsx:24-39 | After anything that happens from mount, a reload shows exactly the texts on screen. |
| Lifecycle.CleanStartStop | components/Recorder.tsx:75-212 | From a clean idle state, a fully successful start records with all five refs on the new resources. A fully successful stop then releases and closes all of them. |
| Lifecycle.FailedStartKeepsConnection | components/Recorder.tsx:172-215 | A start that fails after connect leaves the component not recording, with `rt` set and its connection open. A microphone failure leaves the stream ref as it was. |
| Lifecycle.TokenFailureCreatesNothing | components/Recorder.tsx:108-134 | Without a usable token, the click leaves the component exactly as it was. |
| Lifecycle.StopFailureSkipsTeardown | components/Recorder.tsx:78-106 | When closing the connection throws, stop stops recording but releases and closes nothing. |
| Lifecycle.OrphanStaysOpen | components/Recorder.tsx:78-83 | The component closes a connection only through `rt`. So no click, clear or message closes an open connection that `rt` no longer refers to, or makes `rt` refer to it again. |
| Lifecycle.OrphanStaysOpenForever | components/Recorder.tsx:172-215 | The component never closes a connection that `rt` has dropped, whatever inputs follow. |
| Lifecycle.FailedStartLeaksConnection | components/Recorder.tsx:172-215 | A start that fails at the microphone, followed by a successful start, drops the first connection from `rt`. The component then never closes it. |
| Lifecycle.ClearThenFinalRestoresBaseline | components/Recorder.tsx:137-146 | On a mounted component, after a clear, the next Final on an open connection shows that connection's old baseline + " " + text and issues the request. |
| Lifecycle.ErrorBodyUnmountsComponent | components/Recorder.tsx:143-164 | On a mounted, well-formed component, the endpoint's error body as the reply to a Final unmounts it. The new transcript is shown and saved, the translation is unchanged, and one request is issued. The connection stays open. After that, no input changes the texts, storage or refs. |

## Findings

| source | as written | input that shows it | evidently intended | confidence | as-written member | corrected member |
|---|---|---|---|---|---|---|
| components/Recorder.tsx:161 | The updater `prev => prev + ' ' + data.translation.text` reads `data.translation` only when React runs it, outside the `try` at lines 149-164. A body without `translation` makes it throw while rendering, and React unmounts the component. | A Final whose translation request gets the endpoint's error body `{ error: 'Translation failed' }` (app/api/translate/route.ts:11) | Like a thrown request, the failure is logged and the translation is left unchanged (`catch` at lines 162-164) | medium, not executed (depends on React's render-phase rethrow) | Reconciler.Relay, shown by Reconciler.ErrorBodyUnmounts and Lifecycle.ErrorBodyUnmountsComponent | Reconciler.RelayIntended |

The rest of the model keeps the code's behaviour, so that the unmounting and
what follows it can be stated. `Reconciler.ErrorBodyUnmounts` shows that the
two relays agree on every reply except the error body. `Reconciler.PartialsThenFinal`
shows the translation the intended relay gives.

## Left out

- Floating point is not modelled. Samples are exact reals, so NaN, infinities and single-precision rounding of the Float32Array are not covered.
- AudioFramer.Process requires a non-empty `inputs`. With an empty one, `inputs[0][0]` throws, which is outside the processor's contract with the audio engine.
- The worklet port messaging is out of scope: `postMessage`, frame transfer, and `sendAudio` forwarding to the service. A frame is modelled as its posted content.
- The unmount cleanup (components/Recorder.tsx:54-58) is not modelled. This includes the unmount after a render error, where the cleanup would call `close` on the audio context, which the model leaves open.
- The dynamic script loading is reduced to the `ScriptLoaded` input.
- A session that the transcription service or a network failure ends is not modelled. A connection leaves the open set only when stop closes `rt`. So the orphan lemmas state that the component itself never closes such a connection, not that it stays open in the browser.
- The token and translation API routes are not modelled. Their results appear only as outcomes of start (`TokenReply`) and as the `Reply` of each Final.
- The `RealtimeService` constructor is assumed not to throw.
- A close that throws (`rt.close`, `audioContext.close`) is modelled as leaving its resource open.
- Asynchronous interleaving is left out. Events, clicks and translation replies are handled one at a time, in order, and a reply is applied within its Final event. Reordered replies, and a message arriving during start, are not modelled. A Final's transcript update is assumed to be rendered, and saved, before its translation reply arrives.
- React batching of state updates and effects is not modelled. The save effects are applied after every delivered message, which yields the same storage because saving an unchanged value is idempotent.
- Alerts, console logging, the `error` handler of the service and the page layout are left out. They change no state.
