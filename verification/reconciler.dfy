/** Model of the transcript handler that components/Recorder.tsx registers on
    each real-time transcription service, together with the translation relay
    it runs for every final segment.

    A handler owns a committed baseline (the closure variable `currentTranscript`);
    the component owns the displayed `transcript` and the `translation`.
    Events are processed one at a time, in the order they arrive. The outcome of
    the translation request a Final event issues is an input of the event.

    The translation update is a state updater that reads the reply body only
    when React runs it, which is outside the handler's `try`. A body without a
    `translation` object makes it throw while React renders; React then
    unmounts the component, and every later state update is dropped, while the
    handler itself stays registered on its service.
 */
module Reconciler {

  /** A transcript message from the service, classified by its `message_type`. */
  datatype Message =
    | Partial(text: string)         // 'PartialTranscript'
    | Final(text: string)           // 'FinalTranscript'
    | Other(messageType: string)    // any other type: ignored

  /** What the relay gets back from the translation endpoint. */
  datatype Reply =
    | Translated(text: string)      // a body with `translation.text`
    | TextMissing                   // a `translation` object without `text`
    | ErrorBody                     // a body without `translation`, such as the endpoint's error body
    | RequestFailed                 // the request or the JSON decoding threw

  /** What the translation state update does when React applies it: yields a
      new value, or throws. */
  datatype Update = Set(value: string) | Throws

  /** The body of one translation request. */
  datatype Request = Request(text: string, targetLang: string)

  /** One delivered message, with the language selector's value at that moment
      and the reply its translation request (if any) receives. */
  datatype Event = Event(message: Message, targetLang: string, reply: Reply)

  /** The handler's baseline, the component's two text buffers, and whether
      React has unmounted the component after a render error. */
  datatype Texts = Texts(baseline: string, transcript: string, translation: string, unmounted: bool)

  /** A Final whose reply is an error body: its translation update throws. */
  predicate Fatal(e: Event) {
    e.message.Final? && e.reply.ErrorBody?
  }

  /** The translation update `prev => prev + ' ' + data.translation.text`.
      A request that threw is caught in the handler and queues no update; an
      error body makes the updater throw. */
  function Relay(translation: string, reply: Reply): (r: Update)
    ensures r.Throws? <==> reply.ErrorBody?
    ensures r.Set? ==> translation <= r.value
    ensures r == Set(translation) <==> reply.RequestFailed?
  {
    match reply
    case Translated(t) => Set(translation + " " + t)
    // JavaScript renders the missing field as "undefined" in the concatenation
    case TextMissing => Set(translation + " undefined")
    case ErrorBody => Throws
    case RequestFailed => Set(translation)
  }

  /** The relay as the handler's `try`/`catch` evidently means it: a reply that
      carries no translation, the endpoint's error body included, is logged and
      leaves the translation as it was. */
  function RelayIntended(translation: string, reply: Reply): (r: string)
    ensures translation <= r
    ensures r == translation <==> reply.ErrorBody? || reply.RequestFailed?
  {
    match Relay(translation, reply)
    case Set(v) => v
    case Throws => translation
  }

  /** The handler body for one event. Returns the new texts and the translation
      requests it issued. Once the component is unmounted the handler still
      commits to its baseline and still sends requests, but its state updates
      are dropped. */
  function OnEvent(t: Texts, e: Event): (r: (Texts, seq<Request>))
    ensures t.baseline <= r.0.baseline
    ensures t.translation <= r.0.translation
    ensures r.0.unmounted <==> t.unmounted || Fatal(e)
    ensures t.unmounted ==> r.0.transcript == t.transcript && r.0.translation == t.translation
    ensures e.message.Other? ==> r == (t, [])
    ensures !e.message.Other? && !t.unmounted ==> r.0.baseline <= r.0.transcript
    ensures |r.1| == if e.message.Final? then 1 else 0
  {
    match e.message
    case Partial(text) =>
      if t.unmounted then (t, [])
      else (t.(transcript := t.baseline + " " + text), [])
    case Final(text) =>
      var baseline := t.baseline + " " + text;
      var requests := [Request(text, e.targetLang)];
      if t.unmounted then (t.(baseline := baseline), requests)
      else
        // the transcript update is rendered before the reply arrives
        (match Relay(t.translation, e.reply)
         case Set(v) => (Texts(baseline, baseline, v, false), requests)
         case Throws => (Texts(baseline, baseline, t.translation, true), requests))
    case Other(_) =>
      (t, [])
  }

  /** A Partial event shows `baseline + " " + text` and commits nothing. */
  lemma PartialShowsWithoutCommitting(t: Texts, text: string, lang: string, reply: Reply)
    ensures var (u, reqs) := OnEvent(t, Event(Partial(text), lang, reply));
      && u.baseline == t.baseline
      && u.translation == t.translation
      && u.unmounted == t.unmounted
      && reqs == []
      && (!t.unmounted ==> u.transcript == t.baseline + " " + text)
  {
  }

  /** A Final event commits `" " + text` to the baseline, shows exactly the new
      baseline, issues one request for `text` in the selected language, and the
      transcript does not depend on the translation's outcome. A failed request
      leaves the translation unchanged; an error body unmounts the component
      with the translation unchanged. */
  lemma FinalCommitsAndRequests(t: Texts, text: string, lang: string, reply: Reply)
    ensures var (u, reqs) := OnEvent(t, Event(Final(text), lang, reply));
      && u.baseline == t.baseline + " " + text
      && reqs == [Request(text, lang)]
      && (!t.unmounted ==> u.transcript == u.baseline)
      && (reply.RequestFailed? ==> u.translation == t.translation && u.unmounted == t.unmounted)
      && (reply.Translated? && !t.unmounted ==> u.translation == t.translation + " " + reply.text)
      && (reply.ErrorBody? ==> u.unmounted && u.translation == t.translation)
      && forall other: Reply :: OnEvent(t, Event(Final(text), lang, other)).0.transcript == u.transcript
  {
  }

  /** The error body takes the component down where the intended relay would
      only have skipped the update: the as-written handler unmounts the
      component, while the intended relay keeps the translation and the
      component. Every other reply is relayed as intended. */
  lemma ErrorBodyUnmounts(t: Texts, text: string, lang: string)
    requires !t.unmounted
    ensures var (u, _) := OnEvent(t, Event(Final(text), lang, ErrorBody));
      && u.unmounted
      && u.translation == RelayIntended(t.translation, ErrorBody) == t.translation
    ensures forall reply: Reply :: !reply.ErrorBody? ==>
      && !OnEvent(t, Event(Final(text), lang, reply)).0.unmounted
      && OnEvent(t, Event(Final(text), lang, reply)).0.translation == RelayIntended(t.translation, reply)
  {
  }

  /** The handler over a sequence of events, oldest first. */
  function Run(t: Texts, events: seq<Event>): (r: (Texts, seq<Request>))
    ensures t.baseline <= r.0.baseline
    ensures t.translation <= r.0.translation
    ensures t.unmounted ==> r.0.unmounted && r.0.transcript == t.transcript && r.0.translation == t.translation
    decreases |events|
  {
    if events == [] then (t, [])
    else
      var (t1, reqs) := OnEvent(t, events[0]);
      var (t2, more) := Run(t1, events[1..]);
      (t2, reqs + more)
  }

  // ---------------------------------------------------------------------------
  // Reference definitions, by filtering the events
  // ---------------------------------------------------------------------------

  /** The text the Final events commit: `" " + text` for each, in order. */
  function Committed(events: seq<Event>): string
    decreases |events|
  {
    if events == [] then ""
    else
      (if events[0].message.Final? then " " + events[0].message.text else "")
      + Committed(events[1..])
  }

  /** One request per Final event, carrying its text and language, in order. */
  function Requested(events: seq<Event>): seq<Request>
    decreases |events|
  {
    if events == [] then []
    else
      (if events[0].message.Final? then [Request(events[0].message.text, events[0].targetLang)] else [])
      + Requested(events[1..])
  }

  /** What a reply adds to the translation buffer. */
  function Appended(reply: Reply): string {
    match reply
    case Translated(t) => " " + t
    case TextMissing => " undefined"
    case _ => ""
  }

  /** The translation text the replies to the Final events add, in order, up
      to the first Final whose reply is an error body. */
  function Relayed(events: seq<Event>): string
    decreases |events|
  {
    if events == [] then ""
    else if Fatal(events[0]) then ""
    else
      (if events[0].message.Final? then Appended(events[0].reply) else "")
      + Relayed(events[1..])
  }

  /** Some Final event carries an error body. */
  predicate Unmounts(events: seq<Event>)
    decreases |events|
  {
    events != [] && (Fatal(events[0]) || Unmounts(events[1..]))
  }

  /** The events with every non-Final event removed. */
  function Finals(events: seq<Event>): (fs: seq<Event>)
    ensures forall i :: 0 <= i < |fs| ==> fs[i].message.Final?
    decreases |events|
  {
    if events == [] then []
    else (if events[0].message.Final? then [events[0]] else []) + Finals(events[1..])
  }

  /** After any events the baseline is the old one followed by the committed
      text of the Final events alone. */
  lemma {:induction false} RunCommits(t: Texts, events: seq<Event>)
    ensures Run(t, events).0.baseline == t.baseline + Committed(events)
    decreases |events|
  {
    if events != [] {
      var (t1, _) := OnEvent(t, events[0]);
      RunCommits(t1, events[1..]);
      var head := if events[0].message.Final? then " " + events[0].message.text else "";
      assert t1.baseline == t.baseline + head;
      assert t.baseline + head + Committed(events[1..]) == t.baseline + (head + Committed(events[1..]));
    }
  }

  /** The requests issued are exactly one per Final event, in order, whether
      or not the component is still mounted. */
  lemma {:induction false} RunRequests(t: Texts, events: seq<Event>)
    ensures Run(t, events).1 == Requested(events)
    decreases |events|
  {
    if events != [] {
      var (t1, _) := OnEvent(t, events[0]);
      RunRequests(t1, events[1..]);
    }
  }

  /** The component ends unmounted exactly when it already was or some Final
      carries an error body. */
  lemma {:induction false} RunUnmounts(t: Texts, events: seq<Event>)
    ensures Run(t, events).0.unmounted <==> t.unmounted || Unmounts(events)
    decreases |events|
  {
    if events != [] {
      var (t1, _) := OnEvent(t, events[0]);
      RunUnmounts(t1, events[1..]);
    }
  }

  /** What one event adds to a mounted component's translation. */
  lemma OnEventRelays(t: Texts, e: Event)
    requires !t.unmounted
    ensures OnEvent(t, e).0.translation ==
      t.translation + (if e.message.Final? && !Fatal(e) then Appended(e.reply) else "")
  {
    if !(e.message.Final? && !Fatal(e)) {
      assert t.translation + "" == t.translation;
    }
  }

  /** The translation grows by the replies to the Final events alone, in
      order, until the first error body; an unmounted component's translation
      no longer changes. */
  lemma {:induction false} RunRelays(t: Texts, events: seq<Event>)
    ensures Run(t, events).0.translation ==
      if t.unmounted then t.translation else t.translation + Relayed(events)
    decreases |events|
  {
    if events != [] && !t.unmounted {
      var t1 := OnEvent(t, events[0]).0;
      RunCons(t, events);
      RunRelays(t1, events[1..]);
      OnEventRelays(t, events[0]);
      if Fatal(events[0]) {
        assert t.translation + Relayed(events) == t.translation;
      } else {
        var piece := if events[0].message.Final? then Appended(events[0].reply) else "";
        assert Relayed(events) == piece + Relayed(events[1..]);
        assert t.translation + piece + Relayed(events[1..]) == t.translation + (piece + Relayed(events[1..]));
      }
    }
  }

  /** The state after a non-empty sequence is the state after its tail, run
      from the state after its first event. */
  lemma RunCons(t: Texts, events: seq<Event>)
    requires events != []
    ensures Run(t, events).0 == Run(OnEvent(t, events[0]).0, events[1..]).0
  {
  }

  /** Partial text never reaches the baseline: dropping every non-Final event
      leaves the committed baseline, the requests, the translation and whether
      the component unmounts unchanged. */
  lemma {:induction false} OnlyFinalsCommit(t: Texts, events: seq<Event>)
    ensures Run(t, Finals(events)).0.baseline == Run(t, events).0.baseline
    ensures Run(t, Finals(events)).1 == Run(t, events).1
    ensures Run(t, Finals(events)).0.translation == Run(t, events).0.translation
    ensures Run(t, Finals(events)).0.unmounted == Run(t, events).0.unmounted
  {
    FinalsInvisible(events);
    RunCommits(t, events);
    RunCommits(t, Finals(events));
    RunRequests(t, events);
    RunRequests(t, Finals(events));
    RunRelays(t, events);
    RunRelays(t, Finals(events));
    RunUnmounts(t, events);
    RunUnmounts(t, Finals(events));
  }

  /** The reference definitions ignore non-Final events. */
  lemma {:induction false} FinalsInvisible(events: seq<Event>)
    ensures Committed(Finals(events)) == Committed(events)
    ensures Requested(Finals(events)) == Requested(events)
    ensures Relayed(Finals(events)) == Relayed(events)
    ensures Unmounts(Finals(events)) == Unmounts(events)
    decreases |events|
  {
    if events != [] {
      var rest := events[1..];
      FinalsInvisible(rest);
      var fs := Finals(events);
      if events[0].message.Final? {
        assert fs == [events[0]] + Finals(rest);
        assert fs[0] == events[0];
        assert fs[1..] == Finals(rest);
      } else {
        assert fs == Finals(rest);
        assert "" + Relayed(rest) == Relayed(rest);
      }
    }
  }

  /** Running a sequence and then one more event is running the longer sequence. */
  lemma {:induction false} RunSnoc(t: Texts, events: seq<Event>, e: Event)
    ensures var (t1, r1) := Run(t, events);
      var (t2, r2) := OnEvent(t1, e);
      Run(t, events + [e]) == (t2, r1 + r2)
    decreases |events|
  {
    if events == [] {
      assert [] + [e] == [e];
      assert ([e])[1..] == [];
      var (t2, r2) := OnEvent(t, e);
      assert Run(t2, []) == (t2, []);
      assert r2 + [] == r2 && [] + r2 == r2;
    } else {
      var (u, reqs) := OnEvent(t, events[0]);
      assert (events + [e])[0] == events[0];
      assert (events + [e])[1..] == events[1..] + [e];
      RunSnoc(u, events[1..], e);
      var (t1, r1) := Run(u, events[1..]);
      var (t2, r2) := OnEvent(t1, e);
      assert reqs + (r1 + r2) == (reqs + r1) + r2;
    }
  }

  /** While the component is mounted and once its handler has processed a
      Partial or Final event, the displayed transcript starts with the
      committed baseline, and stays so: at most one partial segment is ever
      shown after it. */
  lemma {:induction false} DisplayExtendsBaseline(t: Texts, events: seq<Event>)
    requires t.baseline <= t.transcript
    ensures !Run(t, events).0.unmounted ==> Run(t, events).0.baseline <= Run(t, events).0.transcript
    decreases |events|
  {
    if events != [] {
      var (t1, _) := OnEvent(t, events[0]);
      if !t1.unmounted {
        assert t1.baseline <= t1.transcript;
        DisplayExtendsBaseline(t1, events[1..]);
      }
    }
  }

  /** What is on screen after the last event, while the component is mounted:
      the baseline followed by the last Partial's text, or exactly the baseline
      after a Final. */
  lemma LastEventDecidesDisplay(t: Texts, events: seq<Event>, e: Event)
    ensures var u := Run(t, events + [e]).0;
      && (e.message.Partial? && !u.unmounted ==> u.transcript == u.baseline + " " + e.message.text)
      && (e.message.Final? && !u.unmounted ==> u.transcript == u.baseline)
  {
    RunSnoc(t, events, e);
  }

  /** The worked example: two partials and then a final leave no trace of the
      partials in the baseline and issue one request; the translation is the
      intended relay's, and the component survives unless the reply is an
      error body. */
  lemma PartialsThenFinal(b: string, tr: string, lang: string, reply: Reply)
    ensures var events := [
        Event(Partial("hi"), lang, reply),
        Event(Partial("hi there"), lang, reply),
        Event(Final("hi there."), lang, reply)];
      var (u, reqs) := Run(Texts(b, b, tr, false), events);
      && u.baseline == b + " hi there."
      && u.transcript == u.baseline
      && reqs == [Request("hi there.", lang)]
      && u.translation == RelayIntended(tr, reply)
      && (u.unmounted <==> reply.ErrorBody?)
  {
    var events := [
        Event(Partial("hi"), lang, reply),
        Event(Partial("hi there"), lang, reply),
        Event(Final("hi there."), lang, reply)];
    var t0 := Texts(b, b, tr, false);
    var t1 := Texts(b, b + " " + "hi", tr, false);
    var t2 := Texts(b, b + " " + "hi there", tr, false);
    var t3 := Texts(b + " " + "hi there.", b + " " + "hi there.", RelayIntended(tr, reply), reply.ErrorBody?);
    var reqs := [Request("hi there.", lang)];
    assert OnEvent(t0, events[0]) == (t1, []);
    assert OnEvent(t1, events[1]) == (t2, []);
    assert OnEvent(t2, events[2]) == (t3, reqs);
    assert events[1..] == [events[1], events[2]];
    assert events[1..][1..] == [events[2]];
    assert events[1..][1..][1..] == [];
    assert Run(t3, []) == (t3, []);
    assert Run(t2, [events[2]]) == (t3, reqs + []);
    assert Run(t1, [events[1], events[2]]) == (t3, [] + (reqs + []));
    assert Run(t0, events) == (t3, [] + ([] + (reqs + [])));
    assert [] + ([] + (reqs + [])) == reqs;
    assert b + " " + "hi there." == b + " hi there.";
  }
}
