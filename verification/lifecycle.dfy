/** Model of the Recorder component of components/Recorder.tsx: the record
    toggle `handleRecord` (start and stop), `clearTranscripts`, the
    load/save persistence effects, and the delivery of transcript messages to
    the handlers of open real-time connections.

    Each external call (token request, connect, microphone, audio context,
    worklet module, node construction, close) is abstracted to an outcome
    given as input; the browser resources are abstract identities. Every
    RealtimeService created gets the next identity, and the audio resources
    acquired in the same start share it.
 */
module Lifecycle {
  import opened Reconciler
  import opened Persistence

  datatype Option<T> = None | Some(value: T)

  /** What the token request yields. */
  datatype TokenReply =
    | TokenRequestFailed          // the fetch or a JSON decoding threw
    | TokenRejected               // a response that is not ok
    | TokenIssued(token: string)  // an ok body; an empty or absent token counts as none

  /** The setup steps after the token, in the order start runs them. */
  datatype SetupStep =
    | Connect          // rtService.connect()
    | Microphone       // getUserMedia
    | CreateContext    // new AudioContext
    | LoadModule       // audioWorklet.addModule
    | CreateSource     // createMediaStreamSource
    | CreateWorklet    // new AudioWorkletNode
    | WireNodes        // source -> worklet -> destination

  function SetupOrder(s: SetupStep): nat {
    match s
    case Connect => 0
    case Microphone => 1
    case CreateContext => 2
    case LoadModule => 3
    case CreateSource => 4
    case CreateWorklet => 5
    case WireNodes => 6
  }

  /** The outcomes of one start: the token reply, and the first setup step
      that throws, if any. */
  datatype StartOutcome = StartOutcome(token: TokenReply, failsAt: Option<SetupStep>)

  /** `data.token` is truthy. */
  predicate HasToken(o: StartOutcome) {
    o.token.TokenIssued? && o.token.token != ""
  }

  /** The setup step runs and returns when the first failing step is a later one. */
  predicate Reached(failsAt: Option<SetupStep>, step: SetupStep) {
    failsAt.None? || SetupOrder(step) < SetupOrder(failsAt.value)
  }

  /** The setup step ran and returned during this start. */
  predicate Completes(o: StartOutcome, step: SetupStep) {
    HasToken(o) && Reached(o.failsAt, step)
  }

  predicate Succeeds(o: StartOutcome) {
    HasToken(o) && o.failsAt.None?
  }

  /** The teardown steps of stop, in order. */
  datatype TeardownStep =
    | CloseConnection    // rt.close(false)
    | DisconnectWorklet
    | DisconnectSource
    | StopTracks
    | CloseContext       // audioContext.close()

  function TeardownOrder(s: TeardownStep): nat {
    match s
    case CloseConnection => 0
    case DisconnectWorklet => 1
    case DisconnectSource => 2
    case StopTracks => 3
    case CloseContext => 4
  }

  /** The state `rt` and the four refs, as identities of the resources they hold. */
  datatype Refs = Refs(
    rt: Option<nat>,
    stream: Option<nat>,     // streamRef
    context: Option<nat>,    // audioContextRef
    source: Option<nat>,     // sourceNodeRef
    worklet: Option<nat>)    // workletNodeRef

  /** The browser resources still open, whether or not a ref reaches them. */
  datatype Resources = Resources(
    connections: map<nat, string>,   // open connections, with their handler's baseline
    streams: set<nat>,               // microphone streams whose tracks still run
    contexts: set<nat>)              // audio contexts not closed

  /** The component's state, refs and storage, and what is open in the browser. */
  datatype Recorder = Recorder(
    scriptLoaded: bool,
    recording: bool,
    initializing: bool,
    unmounted: bool,        // React unmounted the component after a render error
    transcript: string,
    translation: string,
    refs: Refs,
    services: nat,          // RealtimeService objects created so far
    open: Resources,
    store: Store)           // localStorage

  const NoRefs := Refs(None, None, None, None, None)
  const NothingOpen := Resources(map[], {}, {})

  /** The ref a teardown step releases is set. */
  predicate Held(refs: Refs, step: TeardownStep) {
    match step
    case CloseConnection => refs.rt.Some?
    case DisconnectWorklet => refs.worklet.Some?
    case DisconnectSource => refs.source.Some?
    case StopTracks => refs.stream.Some?
    case CloseContext => refs.context.Some?
  }

  /** Stop gets past `step`: no step up to and including it threw while its ref was set. */
  predicate Releases(refs: Refs, failsAt: Option<TeardownStep>, step: TeardownStep) {
    !(failsAt.Some? && Held(refs, failsAt.value) && TeardownOrder(failsAt.value) <= TeardownOrder(step))
  }

  /** Every ref points at a resource that is still open. */
  predicate RefsOpen(refs: Refs, open: Resources) {
    && (refs.rt.Some? ==> refs.rt.value in open.connections)
    && (refs.stream.Some? ==> refs.stream.value in open.streams)
    && (refs.context.Some? ==> refs.context.value in open.contexts)
  }

  /** Every open resource has an identity already handed out. */
  predicate IssuedBefore(open: Resources, next: nat) {
    && (forall id :: id in open.connections ==> id < next)
    && (forall id :: id in open.streams ==> id < next)
    && (forall id :: id in open.contexts ==> id < next)
  }

  /** What holds between two user-visible transitions: no start is in flight,
      every ref points at an open resource, recording implies every ref is set,
      resource identities are ones already handed out, and a reload would load
      exactly the texts on screen. */
  predicate Wf(c: Recorder) {
    && !c.initializing
    && RefsOpen(c.refs, c.open)
    && (c.recording ==> c.refs.rt.Some? && c.refs.stream.Some? && c.refs.context.Some?
                        && c.refs.source.Some? && c.refs.worklet.Some?)
    && IssuedBefore(c.open, c.services)
    && Load(c.store, TranscriptKey) == c.transcript
    && Load(c.store, TranslationKey) == c.translation
  }

  // ---------------------------------------------------------------------------
  // Mount and persistence
  // ---------------------------------------------------------------------------

  /** The component as mounted: nothing loaded, held or open, and each text
      loaded from storage exactly when its saved value is non-empty. */
  function Mount(store: Store): (c: Recorder)
    ensures Wf(c)
    ensures c.refs == NoRefs && c.open == NothingOpen
    ensures !c.scriptLoaded && !c.recording && !c.unmounted
    ensures c.transcript != "" ==> TranscriptKey in store && c.transcript == store[TranscriptKey]
    ensures c.translation != "" ==> TranslationKey in store && c.translation == store[TranslationKey]
    ensures TranscriptKey in store && store[TranscriptKey] != "" ==> c.transcript == store[TranscriptKey]
    ensures TranslationKey in store && store[TranslationKey] != "" ==> c.translation == store[TranslationKey]
  {
    Recorder(false, false, false, false, Load(store, TranscriptKey), Load(store, TranslationKey),
             NoRefs, 0, NothingOpen, store)
  }

  /** `clearTranscripts`: both texts become empty and both keys are removed,
      so a reload shows empty fields; nothing else changes. */
  function ClearTranscripts(c: Recorder): (r: Recorder)
    ensures r.transcript == "" && r.translation == ""
    ensures TranscriptKey !in r.store && TranslationKey !in r.store
    ensures Mount(r.store).transcript == "" && Mount(r.store).translation == ""
    ensures r.(transcript := c.transcript, translation := c.translation, store := c.store) == c
  {
    c.(transcript := "", translation := "",
       store := Remove(Remove(c.store, TranscriptKey), TranslationKey))
  }

  // ---------------------------------------------------------------------------
  // Start
  // ---------------------------------------------------------------------------

  /** The setup steps after a usable token, run in order until one throws.
      A throw is caught and only logged: whatever was already assigned stays.
      The flag says whether every step returned. */
  function Setup(refs: Refs, open: Resources, id: nat, baseline: string, failsAt: Option<SetupStep>)
    : (r: (Refs, Resources, bool))
    ensures r.2 == failsAt.None?
  {
    if failsAt == Some(Connect) then (refs, open, false) else
    var refs1 := refs.(rt := Some(id));
    var open1 := open.(connections := open.connections[id := baseline]);
    if failsAt == Some(Microphone) then (refs1, open1, false) else
    var refs2 := refs1.(stream := Some(id));
    var open2 := open1.(streams := open1.streams + {id});
    if failsAt == Some(CreateContext) then (refs2, open2, false) else
    var refs3 := refs2.(context := Some(id));
    var open3 := open2.(contexts := open2.contexts + {id});
    if failsAt == Some(LoadModule) || failsAt == Some(CreateSource) then (refs3, open3, false) else
    var refs4 := refs3.(source := Some(id));
    if failsAt == Some(CreateWorklet) then (refs4, open3, false) else
    var refs5 := refs4.(worklet := Some(id));
    // the wiring is the only step left that can throw
    (refs5, open3, failsAt.None?)
  }

  /** What each setup step leaves behind: a ref and its resource are set
      exactly when the step that produces them returned. */
  lemma SetupSteps(refs: Refs, open: Resources, id: nat, baseline: string, failsAt: Option<SetupStep>)
    ensures var (r, o, _) := Setup(refs, open, id, baseline, failsAt);
      && r.rt == (if Reached(failsAt, Connect) then Some(id) else refs.rt)
      && o.connections == (if Reached(failsAt, Connect) then open.connections[id := baseline] else open.connections)
      && r.stream == (if Reached(failsAt, Microphone) then Some(id) else refs.stream)
      && o.streams == (if Reached(failsAt, Microphone) then open.streams + {id} else open.streams)
      && r.context == (if Reached(failsAt, CreateContext) then Some(id) else refs.context)
      && o.contexts == (if Reached(failsAt, CreateContext) then open.contexts + {id} else open.contexts)
      && r.source == (if Reached(failsAt, CreateSource) then Some(id) else refs.source)
      && r.worklet == (if Reached(failsAt, CreateWorklet) then Some(id) else refs.worklet)
  {
    if failsAt.Some? {
      match failsAt.value
      case Connect =>
      case Microphone =>
      case CreateContext =>
      case LoadModule =>
      case CreateSource =>
      case CreateWorklet =>
      case WireNodes =>
    }
  }

  /** The start branch of `handleRecord`: recording starts only when every step
      completed, a token failure returns before any service exists, and the
      initializing flag it raises is lowered on every path. */
  function Start(c: Recorder, o: StartOutcome): (r: Recorder)
    ensures !r.initializing
    ensures r.recording == (c.recording || Succeeds(o))
    ensures !HasToken(o) ==> r == c.(initializing := false)
    ensures r.services == if HasToken(o) then c.services + 1 else c.services
    ensures r.scriptLoaded == c.scriptLoaded
    ensures r.transcript == c.transcript && r.translation == c.translation && r.store == c.store
  {
    var busy := c.(initializing := true);
    var done :=
      if !HasToken(o) then busy
      else
        var (refs, open, ok) := Setup(busy.refs, busy.open, busy.services, busy.transcript, o.failsAt);
        busy.(services := busy.services + 1, refs := refs, open := open,
              recording := if ok then true else busy.recording);
    done.(initializing := false)
  }

  /** Start sets `rt` exactly when connect completed, to the service it
      created, whose connection is then open with the transcript on screen as
      its baseline; otherwise `rt` and the open connections are as before. */
  lemma StartConnects(c: Recorder, o: StartOutcome)
    ensures var r := Start(c, o);
      && r.refs.rt == (if Completes(o, Connect) then Some(c.services) else c.refs.rt)
      && r.open.connections ==
           (if Completes(o, Connect) then c.open.connections[c.services := c.transcript] else c.open.connections)
  {
    if HasToken(o) {
      SetupSteps(c.refs, c.open, c.services, c.transcript, o.failsAt);
    }
  }

  /** Start sets the stream ref exactly when the microphone step completed,
      and that stream is then open; a later failure does not undo it. */
  lemma StartAcquiresStream(c: Recorder, o: StartOutcome)
    ensures var r := Start(c, o);
      && r.refs.stream == (if Completes(o, Microphone) then Some(c.services) else c.refs.stream)
      && r.open.streams == (if Completes(o, Microphone) then c.open.streams + {c.services} else c.open.streams)
  {
    if HasToken(o) {
      SetupSteps(c.refs, c.open, c.services, c.transcript, o.failsAt);
    }
  }

  /** Start sets the context ref exactly when the context step completed, and
      that context is then open; a later failure does not undo it. */
  lemma StartCreatesContext(c: Recorder, o: StartOutcome)
    ensures var r := Start(c, o);
      && r.refs.context == (if Completes(o, CreateContext) then Some(c.services) else c.refs.context)
      && r.open.contexts == (if Completes(o, CreateContext) then c.open.contexts + {c.services} else c.open.contexts)
  {
    if HasToken(o) {
      SetupSteps(c.refs, c.open, c.services, c.transcript, o.failsAt);
    }
  }

  /** Start sets the source and worklet node refs exactly when the steps that
      create those nodes completed. */
  lemma StartBuildsNodes(c: Recorder, o: StartOutcome)
    ensures var r := Start(c, o);
      && r.refs.source == (if Completes(o, CreateSource) then Some(c.services) else c.refs.source)
      && r.refs.worklet == (if Completes(o, CreateWorklet) then Some(c.services) else c.refs.worklet)
  {
    if HasToken(o) {
      SetupSteps(c.refs, c.open, c.services, c.transcript, o.failsAt);
    }
  }

  // ---------------------------------------------------------------------------
  // Stop
  // ---------------------------------------------------------------------------

  /** The teardown steps of stop inside one `try`: each runs only if its ref is
      set, and the first that throws skips every later one. */
  function Teardown(refs: Refs, open: Resources, failsAt: Option<TeardownStep>): (r: (Refs, Resources))
    ensures Cleared(refs.rt, r.0.rt) && Cleared(refs.stream, r.0.stream) && Cleared(refs.context, r.0.context)
    ensures Cleared(refs.source, r.0.source) && Cleared(refs.worklet, r.0.worklet)
    ensures r.1.connections.Keys <= open.connections.Keys
    ensures r.1.streams <= open.streams && r.1.contexts <= open.contexts
    ensures RefsOpen(refs, open) ==> RefsOpen(r.0, r.1)
    ensures failsAt.None? ==> r.0 == NoRefs
  {
    if refs.rt.Some? && failsAt == Some(CloseConnection) then (refs, open) else
    var refs1 := if refs.rt.Some? then refs.(rt := None) else refs;
    var open1 := if refs.rt.Some? then open.(connections := open.connections - {refs.rt.value}) else open;
    if refs1.worklet.Some? && failsAt == Some(DisconnectWorklet) then (refs1, open1) else
    var refs2 := refs1.(worklet := None);
    if refs2.source.Some? && failsAt == Some(DisconnectSource) then (refs2, open1) else
    var refs3 := refs2.(source := None);
    if refs3.stream.Some? && failsAt == Some(StopTracks) then (refs3, open1) else
    var refs4 := if refs3.stream.Some? then refs3.(stream := None) else refs3;
    var open4 := if refs3.stream.Some? then open1.(streams := open1.streams - {refs3.stream.value}) else open1;
    if refs4.context.Some? && failsAt == Some(CloseContext) then (refs4, open4) else
    var refs5 := if refs4.context.Some? then refs4.(context := None) else refs4;
    var open5 := if refs4.context.Some? then open4.(contexts := open4.contexts - {refs4.context.value}) else open4;
    (refs5, open5)
  }

  /** What the first teardown steps leave behind: `rt` is cleared and its
      connection closed, and each node ref is cleared, exactly when stop gets
      past its step. */
  lemma TeardownDisconnects(refs: Refs, open: Resources, failsAt: Option<TeardownStep>)
    ensures var (r, o) := Teardown(refs, open, failsAt);
      && r.rt == (if Releases(refs, failsAt, CloseConnection) then None else refs.rt)
      && o.connections ==
           (if refs.rt.Some? && Releases(refs, failsAt, CloseConnection)
            then open.connections - {refs.rt.value} else open.connections)
      && r.worklet == (if Releases(refs, failsAt, DisconnectWorklet) then None else refs.worklet)
      && r.source == (if Releases(refs, failsAt, DisconnectSource) then None else refs.source)
  {
    if failsAt.Some? {
      match failsAt.value
      case CloseConnection =>
      case DisconnectWorklet =>
      case DisconnectSource =>
      case StopTracks =>
      case CloseContext =>
    }
  }

  /** What the last teardown steps leave behind: the stream and the context
      are released, and closed, exactly when stop gets past their steps. */
  lemma TeardownReleasesMedia(refs: Refs, open: Resources, failsAt: Option<TeardownStep>)
    ensures var (r, o) := Teardown(refs, open, failsAt);
      && r.stream == (if Releases(refs, failsAt, StopTracks) then None else refs.stream)
      && o.streams ==
           (if refs.stream.Some? && Releases(refs, failsAt, StopTracks)
            then open.streams - {refs.stream.value} else open.streams)
      && r.context == (if Releases(refs, failsAt, CloseContext) then None else refs.context)
      && o.contexts ==
           (if refs.context.Some? && Releases(refs, failsAt, CloseContext)
            then open.contexts - {refs.context.value} else open.contexts)
  {
    if failsAt.Some? {
      match failsAt.value
      case CloseConnection =>
      case DisconnectWorklet =>
      case DisconnectSource =>
      case StopTracks =>
      case CloseContext =>
    }
  }

  /** A ref after teardown is either cleared or still what it was. */
  predicate Cleared<T(==)>(before: Option<T>, after: Option<T>) {
    after.None? || after == before
  }

  /** The stop branch of `handleRecord`: recording is switched off first, then
      the teardown runs. It never touches the texts. */
  function Stop(c: Recorder, failsAt: Option<TeardownStep>): (r: Recorder)
    ensures !r.recording
    ensures r.scriptLoaded == c.scriptLoaded && r.initializing == c.initializing && r.services == c.services
    ensures r.transcript == c.transcript && r.translation == c.translation && r.store == c.store
  {
    var (refs, open) := Teardown(c.refs, c.open, failsAt);
    c.(recording := false, refs := refs, open := open)
  }

  /** Stop clears `rt` and closes its connection exactly when closing did not
      throw; a thrown close leaves both as they were. */
  lemma StopClosesConnection(c: Recorder, failsAt: Option<TeardownStep>)
    ensures var r := Stop(c, failsAt);
      && r.refs.rt == (if Releases(c.refs, failsAt, CloseConnection) then None else c.refs.rt)
      && r.open.connections ==
           (if c.refs.rt.Some? && Releases(c.refs, failsAt, CloseConnection)
            then c.open.connections - {c.refs.rt.value} else c.open.connections)
  {
    TeardownDisconnects(c.refs, c.open, failsAt);
  }

  /** Stop clears each node ref exactly when no earlier step, nor its own
      disconnect, threw. */
  lemma StopDisconnectsNodes(c: Recorder, failsAt: Option<TeardownStep>)
    ensures var r := Stop(c, failsAt);
      && r.refs.worklet == (if Releases(c.refs, failsAt, DisconnectWorklet) then None else c.refs.worklet)
      && r.refs.source == (if Releases(c.refs, failsAt, DisconnectSource) then None else c.refs.source)
  {
    TeardownDisconnects(c.refs, c.open, failsAt);
  }

  /** Stop stops the stream's tracks, clearing its ref, exactly when it gets
      past their step; a throw anywhere earlier leaves them running and
      referenced. */
  lemma StopStopsTracks(c: Recorder, failsAt: Option<TeardownStep>)
    ensures var r := Stop(c, failsAt);
      && r.refs.stream == (if Releases(c.refs, failsAt, StopTracks) then None else c.refs.stream)
      && r.open.streams ==
           (if c.refs.stream.Some? && Releases(c.refs, failsAt, StopTracks)
            then c.open.streams - {c.refs.stream.value} else c.open.streams)
  {
    TeardownReleasesMedia(c.refs, c.open, failsAt);
  }

  /** Stop closes the audio context, clearing its ref, exactly when it gets
      past every step up to the close and the close did not throw. */
  lemma StopClosesContext(c: Recorder, failsAt: Option<TeardownStep>)
    ensures var r := Stop(c, failsAt);
      && r.refs.context == (if Releases(c.refs, failsAt, CloseContext) then None else c.refs.context)
      && r.open.contexts ==
           (if c.refs.context.Some? && Releases(c.refs, failsAt, CloseContext)
            then c.open.contexts - {c.refs.context.value} else c.open.contexts)
  {
    TeardownReleasesMedia(c.refs, c.open, failsAt);
  }

  // ---------------------------------------------------------------------------
  // The record button
  // ---------------------------------------------------------------------------

  /** `handleRecord`: ignored until the client script is loaded; otherwise it
      toggles between recording and not, where starting may fail. */
  function HandleRecord(c: Recorder, start: StartOutcome, stop: Option<TeardownStep>): (r: Recorder)
    ensures !c.scriptLoaded ==> r == c
    ensures c.scriptLoaded ==> (r.recording <==> !c.recording && Succeeds(start))
    ensures c.scriptLoaded && !c.initializing ==> !r.initializing
    ensures r.transcript == c.transcript && r.translation == c.translation && r.store == c.store
  {
    if !c.scriptLoaded then c
    else if c.recording then Stop(c, stop)
    else Start(c, start)
  }

  /** A press of the record button, which is disabled while initializing or
      before the script has loaded, and gone once the component is unmounted. */
  function Click(c: Recorder, start: StartOutcome, stop: Option<TeardownStep>): (r: Recorder)
    ensures c.initializing || !c.scriptLoaded || c.unmounted ==> r == c
    ensures !c.initializing && !c.unmounted ==> r == HandleRecord(c, start, stop)
  {
    if c.initializing || !c.scriptLoaded || c.unmounted then c else HandleRecord(c, start, stop)
  }

  // ---------------------------------------------------------------------------
  // Transcript delivery
  // ---------------------------------------------------------------------------

  /** A transcript message from connection `id`: runs that connection's
      handler against its own baseline, then the save effects. A connection
      that is not open delivers nothing. A Final whose reply is an error body
      unmounts the component; an unmounted component runs no effects, but the
      handlers of its open connections keep committing to their baselines and
      sending translation requests. */
  function Deliver(c: Recorder, id: nat, e: Event): (r: (Recorder, seq<Request>))
    ensures id !in c.open.connections ==> r == (c, [])
    ensures r.0.open.connections.Keys == c.open.connections.Keys
    ensures id in c.open.connections ==> c.open.connections[id] <= r.0.open.connections[id]
    ensures id in c.open.connections ==> |r.1| == if e.message.Final? then 1 else 0
    ensures r.0.unmounted <==> c.unmounted || (id in c.open.connections && Fatal(e))
    ensures c.unmounted ==>
      r.0.transcript == c.transcript && r.0.translation == c.translation && r.0.store == c.store
    ensures r.0.(transcript := c.transcript, translation := c.translation, store := c.store,
                 open := c.open, unmounted := c.unmounted) == c
  {
    if id !in c.open.connections then (c, [])
    else
      var (t, reqs) := OnEvent(Texts(c.open.connections[id], c.transcript, c.translation, c.unmounted), e);
      var store :=
        if c.unmounted then c.store
        else Save(Save(c.store, TranscriptKey, t.transcript), TranslationKey, t.translation);
      (c.(open := c.open.(connections := c.open.connections[id := t.baseline]),
          transcript := t.transcript, translation := t.translation, unmounted := t.unmounted,
          store := store), reqs)
  }

  /** Everything that can happen to the component, one at a time. */
  datatype Input =
    | ScriptLoaded
    | RecordClicked(start: StartOutcome, stop: Option<TeardownStep>)
    | ClearClicked
    | Received(connection: nat, event: Event)

  /** One input. Only messages issue translation requests, and only a message
      can unmount the component; once it is unmounted the script's load and
      the buttons no longer reach it. */
  function Step(c: Recorder, i: Input): (r: (Recorder, seq<Request>))
    ensures !i.Received? ==> r.1 == []
    ensures r.0.unmounted <==> c.unmounted || (i.Received? && i.connection in c.open.connections && Fatal(i.event))
    ensures c.unmounted ==> && r.0.transcript == c.transcript && r.0.translation == c.translation
                            && r.0.store == c.store && r.0.refs == c.refs && r.0.recording == c.recording
  {
    match i
    case ScriptLoaded => (if c.unmounted then c else c.(scriptLoaded := true), [])
    case RecordClicked(start, stop) => (Click(c, start, stop), [])
    case ClearClicked => (if c.unmounted then c else ClearTranscripts(c), [])
    case Received(id, e) => Deliver(c, id, e)
  }

  /** The component over a sequence of inputs, oldest first. Once unmounted,
      nothing on screen, in storage or in the refs changes again. */
  function RunInputs(c: Recorder, inputs: seq<Input>): (r: (Recorder, seq<Request>))
    ensures c.unmounted ==> && r.0.unmounted
                            && r.0.transcript == c.transcript && r.0.translation == c.translation
                            && r.0.store == c.store && r.0.refs == c.refs && r.0.recording == c.recording
    decreases |inputs|
  {
    if inputs == [] then (c, [])
    else
      var (c1, reqs) := Step(c, inputs[0]);
      var (c2, more) := RunInputs(c1, inputs[1..]);
      (c2, reqs + more)
  }

  // ---------------------------------------------------------------------------
  // Properties
  // ---------------------------------------------------------------------------

  /** Start keeps the component well formed. */
  lemma StartPreservesWf(c: Recorder, o: StartOutcome)
    requires Wf(c) && !c.recording
    ensures Wf(Start(c, o))
  {
    StartConnects(c, o);
    StartAcquiresStream(c, o);
    StartCreatesContext(c, o);
    StartBuildsNodes(c, o);
  }

  /** Stop keeps the component well formed. */
  lemma StopPreservesWf(c: Recorder, failsAt: Option<TeardownStep>)
    requires Wf(c)
    ensures Wf(Stop(c, failsAt))
  {
    StopClosesConnection(c, failsAt);
    StopStopsTracks(c, failsAt);
    StopClosesContext(c, failsAt);
  }

  /** Delivering a message keeps the component well formed; in particular the
      save effects keep storage in step with the texts. */
  lemma DeliverPreservesWf(c: Recorder, id: nat, e: Event)
    requires Wf(c)
    ensures Wf(Deliver(c, id, e).0)
  {
    if id in c.open.connections {
      var (t, _) := OnEvent(Texts(c.open.connections[id], c.transcript, c.translation, c.unmounted), e);
      LoadAfterSave(c.store, TranscriptKey, t.transcript);
      LoadAfterSave(Save(c.store, TranscriptKey, t.transcript), TranslationKey, t.translation);
    }
  }

  /** Every transition keeps the component well formed. */
  lemma StepPreservesWf(c: Recorder, i: Input)
    requires Wf(c)
    ensures Wf(Step(c, i).0)
  {
    match i
    case ScriptLoaded =>
    case RecordClicked(start, stop) =>
      if c.scriptLoaded && !c.recording {
        StartPreservesWf(c, start);
      } else if c.scriptLoaded {
        StopPreservesWf(c, stop);
      }
    case ClearClicked =>
    case Received(id, e) =>
      DeliverPreservesWf(c, id, e);
  }

  /** Any sequence of inputs keeps the component well formed. */
  lemma {:induction false} RunPreservesWf(c: Recorder, inputs: seq<Input>)
    requires Wf(c)
    ensures Wf(RunInputs(c, inputs).0)
    decreases |inputs|
  {
    if inputs != [] {
      StepPreservesWf(c, inputs[0]);
      RunPreservesWf(Step(c, inputs[0]).0, inputs[1..]);
    }
  }

  /** Texts are persisted after every change: whatever happens after mounting,
      a reload shows exactly the texts on screen. */
  lemma ReloadShowsTexts(store: Store, inputs: seq<Input>)
    ensures var c := RunInputs(Mount(store), inputs).0;
      Mount(c.store).transcript == c.transcript && Mount(c.store).translation == c.translation
  {
    RunPreservesWf(Mount(store), inputs);
  }

  /** From a clean idle state, a start whose every step succeeds records with
      every ref set to the new resources, and a stop whose every step succeeds
      releases and closes all of them. */
  lemma CleanStartStop(c: Recorder, token: string)
    requires Wf(c) && c.refs == NoRefs && c.open == NothingOpen && c.scriptLoaded && !c.recording && !c.unmounted
    requires token != ""
    ensures var o := StartOutcome(TokenIssued(token), None);
      var c1 := Click(c, o, None);
      && c1.recording && Wf(c1)
      && c1.refs == Refs(Some(c.services), Some(c.services), Some(c.services), Some(c.services), Some(c.services))
      && c1.open == Resources(map[c.services := c.transcript], {c.services}, {c.services})
      && var c2 := Click(c1, o, None);
      && !c2.recording && c2.refs == NoRefs && c2.open == NothingOpen
  {
    var o := StartOutcome(TokenIssued(token), None);
    StartConnects(c, o);
    StartAcquiresStream(c, o);
    StartCreatesContext(c, o);
    StartBuildsNodes(c, o);
    var c1 := Click(c, o, None);
    StartPreservesWf(c, o);
    StopClosesConnection(c1, None);
    StopDisconnectsNodes(c1, None);
    StopStopsTracks(c1, None);
    StopClosesContext(c1, None);
  }

  /** A start that fails after the connection opened leaves the new connection
      open and referenced by `rt` while the component is not recording; a
      failure at the microphone leaves the stream ref and open streams as they
      were. */
  lemma FailedStartKeepsConnection(c: Recorder, token: string, step: SetupStep)
    requires Wf(c) && c.scriptLoaded && !c.recording && !c.unmounted
    requires token != "" && step != Connect
    ensures var r := Click(c, StartOutcome(TokenIssued(token), Some(step)), None);
      && !r.recording && !r.initializing
      && r.refs.rt == Some(c.services) && c.services in r.open.connections
      && (step == Microphone ==> r.refs.stream == c.refs.stream && r.open.streams == c.open.streams)
  {
    var o := StartOutcome(TokenIssued(token), Some(step));
    StartConnects(c, o);
    StartAcquiresStream(c, o);
    StartCreatesContext(c, o);
  }

  /** A start whose token step fails changes nothing but the initializing flag
      it raised and lowered: no service, connection or resource is created. */
  lemma TokenFailureCreatesNothing(c: Recorder, o: StartOutcome, stop: Option<TeardownStep>)
    requires Wf(c) && !c.recording
    requires !HasToken(o)
    ensures Click(c, o, stop) == c
  {
  }

  /** The single `try` of stop: when closing the connection throws, the audio
      nodes, the stream and the context are neither released nor closed. */
  lemma StopFailureSkipsTeardown(c: Recorder, retry: StartOutcome)
    requires Wf(c) && c.scriptLoaded && c.recording && !c.unmounted
    ensures var r := Click(c, retry, Some(CloseConnection));
      && !r.recording
      && r.refs == c.refs && r.open == c.open
  {
  }

  /** An open connection that `rt` no longer refers to. */
  predicate Orphaned(c: Recorder, id: nat) {
    id in c.open.connections && c.refs.rt != Some(id)
  }

  /** No transition closes an orphaned connection or refers to it again. */
  lemma OrphanStaysOpen(c: Recorder, i: Input, id: nat)
    requires Wf(c) && Orphaned(c, id)
    ensures Orphaned(Step(c, i).0, id)
  {
    assert id < c.services;
    match i
    case RecordClicked(start, stop) =>
      StartConnects(c, start);
      StopClosesConnection(c, stop);
    case _ =>
  }

  /** Once orphaned, a connection stays open for the rest of the component's life. */
  lemma {:induction false} OrphanStaysOpenForever(c: Recorder, inputs: seq<Input>, id: nat)
    requires Wf(c) && Orphaned(c, id)
    ensures Orphaned(RunInputs(c, inputs).0, id)
    decreases |inputs|
  {
    if inputs != [] {
      OrphanStaysOpen(c, inputs[0], id);
      StepPreservesWf(c, inputs[0]);
      OrphanStaysOpenForever(Step(c, inputs[0]).0, inputs[1..], id);
    }
  }

  /** A start that fails at the microphone followed by a start that succeeds
      orphans the first connection, which then stays open whatever follows. */
  lemma FailedStartLeaksConnection(c: Recorder, token: string, retry: StartOutcome, later: seq<Input>)
    requires Wf(c) && c.scriptLoaded && !c.recording && !c.unmounted
    requires token != "" && Succeeds(retry)
    ensures var c1 := Click(c, StartOutcome(TokenIssued(token), Some(Microphone)), None);
      var c2 := Click(c1, retry, None);
      && c2.recording
      && Orphaned(c2, c.services)
      && Orphaned(RunInputs(c2, later).0, c.services)
  {
    var o := StartOutcome(TokenIssued(token), Some(Microphone));
    StartConnects(c, o);
    var c1 := Click(c, o, None);
    StartPreservesWf(c, o);
    StartConnects(c1, retry);
    var c2 := Click(c1, retry, None);
    StartPreservesWf(c1, retry);
    OrphanStaysOpenForever(c2, later, c.services);
  }

  /** Clearing while a connection is open does not reset that handler's
      baseline, so its next Final brings the cleared text back on screen. */
  lemma ClearThenFinalRestoresBaseline(c: Recorder, id: nat, text: string, lang: string, reply: Reply)
    requires id in c.open.connections && !c.unmounted
    ensures var (r, reqs) := Deliver(ClearTranscripts(c), id, Event(Final(text), lang, reply));
      && r.transcript == c.open.connections[id] + " " + text
      && reqs == [Request(text, lang)]
  {
  }

  /** The translation endpoint's error body, as the reply to a Final on an
      open connection, unmounts the component: the new transcript was already
      shown and saved, the translation is left as it was, and from then on
      nothing on screen, in storage or in the refs changes, whatever follows.
      The connection stays open. */
  lemma ErrorBodyUnmountsComponent(c: Recorder, id: nat, text: string, lang: string, later: seq<Input>)
    requires Wf(c) && id in c.open.connections && !c.unmounted
    ensures var (r, reqs) := Deliver(c, id, Event(Final(text), lang, ErrorBody));
      && r.unmounted
      && r.transcript == c.open.connections[id] + " " + text
      && Load(r.store, TranscriptKey) == r.transcript
      && r.translation == c.translation
      && reqs == [Request(text, lang)]
      && id in r.open.connections
      && var f := RunInputs(r, later).0;
      && f.unmounted && f.transcript == r.transcript && f.translation == r.translation
      && f.store == r.store && f.refs == r.refs
  {
    DeliverPreservesWf(c, id, Event(Final(text), lang, ErrorBody));
  }
}
