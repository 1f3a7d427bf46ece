/**
 * The assembler of streamed AI answers and the transport handlers that drive it: content deltas,
 * the final frame and the loss of the connection.
 */
module Streaming {
  import opened Common
  import opened Text

  datatype Outcome = Appended | Terminal | Rejected

  /** The `data` of an `ai-response-delta` frame: `Malformed` when a field has the wrong type. */
  datatype Payload = Malformed | Payload(contentDelta: string, done: bool)

  datatype Input = Delta(payload: Payload) | FinalFrame | Disconnected

  /** What the transport tells its listeners; `id` is the number in the name `ai-stream-<id>`. */
  datatype StreamEvent =
    | DeltaUpdate(id: nat, content: string)
    | EndFinal(id: nat)
    | EndInterrupted(id: nat, content: string)

  datatype Assembler = Assembler(
    parts: seq<string>,
    streamId: Option<nat>,
    terminalDeltaSeen: bool,
    nextStreamId: nat)

  const FRESH := Assembler([], None, false, 1)

  function StreamName(id: nat): string {
    "ai-stream-" + Decimal(id)
  }

  /** The id of the open stream; no event carries it while no stream is open. */
  function OpenId(a: Assembler): nat {
    if a.streamId.Some? then a.streamId.value else 0
  }

  // ---- one step ---------------------------------------------------------------------------

  function Append(a: Assembler, text: string): Assembler {
    var b := if a.streamId.None?
             then a.(streamId := Some(a.nextStreamId), nextStreamId := a.nextStreamId + 1)
             else a;
    b.(parts := b.parts + [text])
  }

  function Reset(a: Assembler): Assembler {
    a.(parts := [], streamId := None, terminalDeltaSeen := false)
  }

  function OutcomeOf(a: Assembler, done: bool): Outcome {
    if a.terminalDeltaSeen then Rejected else if done then Terminal else Appended
  }

  function AfterDelta(a: Assembler, text: string, done: bool): Assembler {
    if a.terminalDeltaSeen then a
    else if done then (if text != "" then Append(a, text) else a).(terminalDeltaSeen := true)
    else Append(a, text)
  }

  function AfterClose(a: Assembler): Assembler {
    if a.streamId.None? then a else Reset(a)
  }

  /** The assembler after one input. */
  function Next(a: Assembler, e: Input): Assembler {
    match e
    case Delta(Malformed) => a
    case Delta(Payload(text, done)) => AfterDelta(a, text, done)
    case FinalFrame => AfterClose(a)
    case Disconnected => AfterClose(a)
  }

  /** The events one input makes the transport emit. */
  function Emitted(a: Assembler, e: Input): seq<StreamEvent> {
    match e
    case Delta(Malformed) => []
    case Delta(Payload(text, done)) =>
      if OutcomeOf(a, done) != Appended then []
      else
        var b := AfterDelta(a, text, done);
        [DeltaUpdate(OpenId(b), Concat(b.parts))]
    case FinalFrame =>
      if a.streamId.None? then [] else [EndFinal(a.streamId.value)]
    case Disconnected =>
      if a.streamId.None? || Concat(a.parts) == "" then []
      else [EndInterrupted(a.streamId.value, Concat(a.parts))]
  }

  // ---- whole runs -------------------------------------------------------------------------

  function StateAfter(h: seq<Input>): Assembler {
    if h == [] then FRESH else Next(StateAfter(Init(h)), Last(h))
  }

  function LogAfter(h: seq<Input>): seq<StreamEvent> {
    if h == [] then [] else LogAfter(Init(h)) + Emitted(StateAfter(Init(h)), Last(h))
  }

  lemma StepSnoc(h: seq<Input>, e: Input)
    ensures StateAfter(h + [e]) == Next(StateAfter(h), e)
    ensures LogAfter(h + [e]) == LogAfter(h) + Emitted(StateAfter(h), e)
  {
    assert Init(h + [e]) == h;
  }

  /**
   * Two events of a log, the earlier first: ids never decrease, nothing carries the id of an
   * ended stream, and the text shown under one id only grows at its end.
   */
  ghost predicate InOrder(x: StreamEvent, y: StreamEvent) {
    && x.id <= y.id
    && (!x.DeltaUpdate? ==> x.id < y.id)
    && (x.DeltaUpdate? && !y.EndFinal? && x.id == y.id ==> x.content <= y.content)
  }

  ghost predicate WellOrdered(log: seq<StreamEvent>) {
    forall i, j :: 0 <= i < j < |log| ==> InOrder(log[i], log[j])
  }

  /** How a log relates to the assembler that produced it. */
  ghost predicate Accounted(log: seq<StreamEvent>, a: Assembler) {
    forall x :: x in log ==>
      && 1 <= x.id < a.nextStreamId
      && (a.streamId == Some(x.id) ==> x.DeltaUpdate? && x.content <= Concat(a.parts))
  }

  ghost predicate Consistent(a: Assembler) {
    && 1 <= a.nextStreamId
    && (a.streamId.Some? ==> 1 <= a.streamId.value == a.nextStreamId - 1)
    && (a.streamId.None? ==> a.parts == [])
  }

  lemma AppendGrows(a: Assembler, text: string)
    requires Consistent(a)
    ensures Consistent(Append(a, text))
    ensures Concat(Append(a, text).parts) == Concat(a.parts) + text
  {
    assert Init(a.parts + [text]) == a.parts;
  }

  /** An open stream keeps its id and its text; a newly opened one has an id never used before. */
  lemma StepIsConsistent(a: Assembler, e: Input)
    requires Consistent(a)
    ensures var b := Next(a, e);
            && Consistent(b) && a.nextStreamId <= b.nextStreamId
            && (b.streamId.Some? && b.streamId.value < a.nextStreamId ==>
                  b.streamId == a.streamId && Concat(a.parts) <= Concat(b.parts))
  {
    if e.Delta? && e.payload.Payload? {
      AppendGrows(a, e.payload.contentDelta);
    }
  }

  lemma StepIsAccounted(log: seq<StreamEvent>, a: Assembler, e: Input)
    requires Consistent(a) && Accounted(log, a)
    ensures Consistent(Next(a, e))
    ensures Accounted(log + Emitted(a, e), Next(a, e))
  {
    StepIsConsistent(a, e);
    var out, b := Emitted(a, e), Next(a, e);
    assert Concat([]) == "";
    forall x | x in log + out
      ensures 1 <= x.id < b.nextStreamId
      ensures b.streamId == Some(x.id) ==> x.DeltaUpdate? && x.content <= Concat(b.parts)
    {
      if x !in log {
        assert x == out[0];
      }
    }
  }

  lemma StepKeepsOrder(log: seq<StreamEvent>, a: Assembler, e: Input)
    requires Consistent(a) && WellOrdered(log) && Accounted(log, a)
    ensures WellOrdered(log + Emitted(a, e))
  {
    if e.Delta? && e.payload.Payload? {
      AppendGrows(a, e.payload.contentDelta);
    }
    var out := Emitted(a, e);
    assert |out| <= 1;
    forall i | 0 <= i < |log| && out != []
      ensures InOrder(log[i], out[0])
    {
      assert log[i] in log;
    }
  }

  /**
   * The stream log of every run: stream ids never decrease and an ended id never appears again,
   * so each id ends at most once; every delta event extends the one before it under its id.
   */
  lemma {:induction false} LogIsWellOrdered(h: seq<Input>)
    ensures WellOrdered(LogAfter(h))
    ensures Accounted(LogAfter(h), StateAfter(h))
    ensures Consistent(StateAfter(h))
  {
    if h != [] {
      LogIsWellOrdered(Init(h));
      StepKeepsOrder(LogAfter(Init(h)), StateAfter(Init(h)), Last(h));
      StepIsAccounted(LogAfter(Init(h)), StateAfter(Init(h)), Last(h));
    }
  }

  lemma StreamNamesAreDistinct(m: nat, n: nat)
    ensures StreamName(m) == StreamName(n) <==> m == n
  {
    DecimalInjective(m, n);
    assert StreamName(m)[10..] == Decimal(m) && StreamName(n)[10..] == Decimal(n);
  }

  // ---- what the state means, read off the frames alone --------------------------------------

  /** The well-formed deltas received since the last final frame or disconnect. */
  function SinceClose(h: seq<Input>): seq<Payload> {
    if h == [] then []
    else if !Last(h).Delta? then []
    else if Last(h).payload.Malformed? then SinceClose(Init(h))
    else SinceClose(Init(h)) + [Last(h).payload]
  }

  /** Those of them that belong to the answer: everything through the first terminal one. */
  function Accepted(w: seq<Payload>): seq<Payload>
    requires forall p :: p in w ==> p.Payload?
    ensures forall p :: p in Accepted(w) ==> p.Payload?
  {
    if w == [] then []
    else if w[0].done then [w[0]]
    else [w[0]] + Accepted(w[1..])
  }

  function TextOf(w: seq<Payload>): string
    requires forall p :: p in w ==> p.Payload?
  {
    if w == [] then "" else TextOf(Init(w)) + Last(w).contentDelta
  }

  lemma {:induction false} SinceCloseWellFormed(h: seq<Input>)
    ensures forall p :: p in SinceClose(h) ==> p.Payload?
  {
    if h != [] {
      SinceCloseWellFormed(Init(h));
    }
  }

  /** The text of the answer being streamed, as the frames alone determine it. */
  function AnswerText(h: seq<Input>): string {
    SinceCloseWellFormed(h);
    TextOf(Accepted(SinceClose(h)))
  }

  predicate TerminalReceived(h: seq<Input>) {
    exists p :: p in SinceClose(h) && p.Payload? && p.done
  }

  /** An empty terminal delta that arrives while no answer is being streamed. */
  predicate OpensWithEmptyTerminal(h: seq<Input>, k: nat)
    requires k < |h|
  {
    h[k] == Delta(Payload("", true)) && SinceClose(h[..k]) == []
  }

  predicate Wedged(h: seq<Input>) {
    exists k :: 0 <= k < |h| && OpensWithEmptyTerminal(h, k)
  }

  lemma {:induction false} AcceptedSnoc(w: seq<Payload>, p: Payload)
    requires p.Payload? && forall q :: q in w ==> q.Payload?
    ensures Accepted(w + [p]) ==
            if exists q :: q in w && q.done then Accepted(w) else Accepted(w) + [p]
  {
    if w != [] {
      assert (w + [p])[1..] == w[1..] + [p];
      if w[0].done {
        assert w[0] in w;
      } else {
        AcceptedSnoc(w[1..], p);
        assert forall q :: q in w <==> q == w[0] || q in w[1..];
      }
    }
  }

  lemma WedgedSnoc(h: seq<Input>)
    requires h != []
    ensures Wedged(h) <==> Wedged(Init(h)) || OpensWithEmptyTerminal(h, |h| - 1)
  {
    forall k | 0 <= k < |h| - 1
      ensures OpensWithEmptyTerminal(h, k) <==> OpensWithEmptyTerminal(Init(h), k)
    {
      assert Init(h)[..k] == h[..k];
    }
    if Wedged(Init(h)) {
      var k :| 0 <= k < |h| - 1 && OpensWithEmptyTerminal(Init(h), k);
      assert OpensWithEmptyTerminal(h, k);
    }
  }

  /** The state that no input can leave. */
  predicate IsStuck(a: Assembler) {
    a.streamId.None? && a.terminalDeltaSeen && a.parts == []
  }

  /** How the assembler's fields read when it is not stuck. */
  ghost predicate Reflects(a: Assembler, h: seq<Input>) {
    && (a.streamId.Some? <==> SinceClose(h) != [])
    && Concat(a.parts) == AnswerText(h)
    && (a.terminalDeltaSeen <==> TerminalReceived(h))
  }

  lemma ReflectsSnoc(h: seq<Input>, p: Payload)
    requires p.Payload?
    requires Consistent(StateAfter(h)) && Reflects(StateAfter(h), h)
    requires !(p == Payload("", true) && SinceClose(h) == [])
    ensures Reflects(StateAfter(h + [Delta(p)]), h + [Delta(p)])
  {
    var a, g := StateAfter(h), h + [Delta(p)];
    StepSnoc(h, Delta(p));
    AppendGrows(a, p.contentDelta);
    SinceCloseWellFormed(h);
    assert Init(g) == h;
    var w := SinceClose(h);
    assert SinceClose(g) == w + [p];
    AcceptedSnoc(w, p);
    if TerminalReceived(h) {
      var q :| q in w && q.Payload? && q.done;
      assert q in w + [p];
    } else {
      assert Init(Accepted(w) + [p]) == Accepted(w);
      assert p in w + [p];
    }
  }

  /**
   * The assembler's state as a function of the frames alone. Unless an empty terminal delta once
   * arrived with no answer open, a stream is open exactly when a delta arrived since the last
   * close, its text is every delta through the first terminal one - the terminal text included -
   * and the terminal flag is up exactly when a terminal delta arrived. After such a delta the
   * assembler is stuck.
   */
  lemma {:induction false} StateReflectsFrames(h: seq<Input>)
    ensures if Wedged(h) then IsStuck(StateAfter(h)) else Reflects(StateAfter(h), h)
  {
    if h == [] {
    } else {
      var g, e := Init(h), Last(h);
      assert h == g + [e];
      LogIsWellOrdered(g);
      StateReflectsFrames(g);
      WedgedSnoc(h);
      assert h[..|h| - 1] == g;
      if !Wedged(g) {
        if e.Delta? && e.payload.Payload? {
          if !OpensWithEmptyTerminal(h, |h| - 1) {
            ReflectsSnoc(g, e.payload);
          }
        }
      }
    }
  }

  /** How many answers were opened: deltas that came with no answer open. */
  function Openings(h: seq<Input>): nat {
    if h == [] then 0
    else
      var e := Last(h);
      Openings(Init(h)) + if e.Delta? && e.payload.Payload? && SinceClose(Init(h)) == [] then 1 else 0
  }

  /** A delta with no answer open takes the next number; nothing else does, and an open answer keeps its own. */
  lemma StepNumbers(a: Assembler, e: Input)
    requires Consistent(a) && (a.streamId.None? ==> !a.terminalDeltaSeen)
    ensures var b := Next(a, e);
            if a.streamId.None? && e.Delta? && e.payload.Payload? && e.payload != Payload("", true)
            then b.streamId == Some(a.nextStreamId) && b.nextStreamId == a.nextStreamId + 1
            else b.nextStreamId == a.nextStreamId && (b.streamId.Some? ==> b.streamId == a.streamId)
  {
  }

  /** Answers are numbered in the order they open, and every delta of one goes under its number. */
  lemma {:induction false} AnswersAreNumbered(h: seq<Input>)
    requires !Wedged(h)
    ensures var a := StateAfter(h);
            && a.nextStreamId == Openings(h) + 1
            && a.streamId == if SinceClose(h) == [] then None else Some(Openings(h))
  {
    if h != [] {
      var g, e := Init(h), Last(h);
      WedgedSnoc(h);
      assert h[..|h| - 1] == g;
      AnswersAreNumbered(g);
      StateReflectsFrames(g);
      StateReflectsFrames(h);
      LogIsWellOrdered(g);
      StepNumbers(StateAfter(g), e);
    }
  }

  predicate Inert(a: Assembler, e: Input) {
    Next(a, e) == a && Emitted(a, e) == []
  }

  /** Inputs that move nothing now move nothing however many come. */
  lemma {:induction false} Unmoved(h: seq<Input>, g: seq<Input>)
    requires forall i :: 0 <= i < |g| ==> Inert(StateAfter(h), g[i])
    ensures StateAfter(h + g) == StateAfter(h)
    ensures LogAfter(h + g) == LogAfter(h)
  {
    if g == [] {
      assert h + g == h;
    } else {
      Unmoved(h, Init(g));
      AppendInit(h, g);
      StepSnoc(h + Init(g), Last(g));
      assert Inert(StateAfter(h), g[|g| - 1]);
    }
  }

  /** Once stuck, nothing is accepted, reset or emitted again. */
  lemma StuckForever(h: seq<Input>, g: seq<Input>)
    requires Wedged(h)
    ensures StateAfter(h + g) == StateAfter(h)
    ensures LogAfter(h + g) == LogAfter(h)
  {
    assert IsStuck(StateAfter(h)) by {
      StateReflectsFrames(h);
    }
    Unmoved(h, g);
  }

  /** One such frame at the start, and no answer of the connection is ever shown. */
  lemma EmptyTerminalSilences(g: seq<Input>)
    ensures LogAfter([Delta(Payload("", true))] + g) == []
  {
    var h := [] + [Delta(Payload("", true))];
    StepSnoc([], Delta(Payload("", true)));
    assert h[..0] == [] && OpensWithEmptyTerminal(h, 0);
    StuckForever(h, g);
    assert h == [Delta(Payload("", true))];
  }

  /** After a terminal delta every further delta is ignored until the stream is closed. */
  lemma SilentAfterTerminal(h: seq<Input>, g: seq<Input>)
    requires TerminalReceived(h)
    requires forall e :: e in g ==> e.Delta?
    ensures StateAfter(h + g) == StateAfter(h)
    ensures LogAfter(h + g) == LogAfter(h)
  {
    assert StateAfter(h).terminalDeltaSeen by {
      StateReflectsFrames(h);
    }
    Unmoved(h, g);
  }

  /**
   * Losing the connection ends the open stream with exactly the text of its accepted deltas;
   * a stream that never carried text gets no end event at all.
   */
  lemma InterruptionCarriesAcceptedText(h: seq<Input>)
    ensures var text := AnswerText(h);
            LogAfter(h + [Disconnected]) ==
            LogAfter(h) + if Wedged(h) || text == "" then []
                          else [EndInterrupted(OpenId(StateAfter(h)), text)]
  {
    var a := StateAfter(h);
    StateReflectsFrames(h);
    LogIsWellOrdered(h);
    assert Concat(a.parts) == if Wedged(h) then "" else AnswerText(h);
    StepSnoc(h, Disconnected);
  }

  /** A final frame ends the open stream under its id; without one it emits nothing. */
  lemma FinalFrameEndsStream(h: seq<Input>)
    ensures LogAfter(h + [FinalFrame]) ==
            LogAfter(h) + if SinceClose(h) == [] || Wedged(h) then [] else [EndFinal(OpenId(StateAfter(h)))]
  {
    StateReflectsFrames(h);
    StepSnoc(h, FinalFrame);
  }

  /** A terminal delta is taken without a word: its text comes with the end of the stream. */
  lemma TerminalDeltaIsSilent(h: seq<Input>, text: string)
    ensures LogAfter(h + [Delta(Payload(text, true))]) == LogAfter(h)
  {
    StepSnoc(h, Delta(Payload(text, true)));
  }

  /** A non-terminal delta shows the whole text accepted so far, unless it comes too late. */
  lemma DeltaShowsAcceptedText(h: seq<Input>, text: string)
    ensures var g := h + [Delta(Payload(text, false))];
            LogAfter(g) ==
            LogAfter(h) + if Wedged(h) || TerminalReceived(h) then []
                          else [DeltaUpdate(OpenId(StateAfter(g)), AnswerText(h) + text)]
  {
    StepSnoc(h, Delta(Payload(text, false)));
    StateReflectsFrames(h);
    LogIsWellOrdered(h);
    AppendGrows(StateAfter(h), text);
  }

  // ---- the classes --------------------------------------------------------------------------

  class StreamingAssembler {
    var parts: seq<string>
    var streamId: Option<nat>
    var terminalDeltaSeen: bool
    var nextStreamId: nat

    ghost function View(): Assembler
      reads this
    {
      Assembler(parts, streamId, terminalDeltaSeen, nextStreamId)
    }

    constructor ()
      ensures View() == FRESH
    {
      parts, streamId, terminalDeltaSeen, nextStreamId := [], None, false, 1;
    }

    method OnDelta(contentDelta: string, done: bool) returns (r: Outcome)
      modifies this
      ensures r == OutcomeOf(old(View()), done)
      ensures View() == AfterDelta(old(View()), contentDelta, done)
    {
      if terminalDeltaSeen {
        return Rejected;
      }
      if done {
        if contentDelta != "" {
          AppendPart(contentDelta);
        }
        terminalDeltaSeen := true;
        return Terminal;
      }
      AppendPart(contentDelta);
      return Appended;
    }

    method CloseOnFinal() returns (ended: Option<nat>)
      modifies this
      ensures ended == old(streamId)
      ensures View() == AfterClose(old(View()))
    {
      ended := streamId;
      if streamId.Some? {
        ResetParts();
      }
    }

    method CloseOnDisconnect() returns (ended: Option<(nat, string)>)
      modifies this
      ensures View() == AfterClose(old(View()))
      ensures ended == if old(streamId.None? || Concat(parts) == "") then None
                       else Some((old(streamId.value), old(Concat(parts))))
    {
      if streamId.None? {
        return None;
      }
      var content, id := Concat(parts), streamId.value;
      ResetParts();
      ended := if content == "" then None else Some((id, content));
    }

    method AppendPart(contentDelta: string)
      modifies this
      ensures View() == Append(old(View()), contentDelta)
    {
      if streamId.None? {
        streamId := Some(nextStreamId);
        nextStreamId := nextStreamId + 1;
      }
      parts := parts + [contentDelta];
    }

    method ResetParts()
      modifies this
      ensures View() == Reset(old(View()))
    {
      parts, streamId, terminalDeltaSeen := [], None, false;
    }
  }

  /** The part of the transport that turns frames into stream events; `log` is what it emitted. */
  class StreamTransport {
    const assembler: StreamingAssembler
    ghost var history: seq<Input>
    ghost var log: seq<StreamEvent>

    /** The object is where the frames it has seen put it. */
    ghost predicate Valid()
      reads this, assembler
    {
      assembler.View() == StateAfter(history) && log == LogAfter(history)
    }

    constructor ()
      ensures Valid() && history == [] && fresh(assembler)
    {
      assembler := new StreamingAssembler();
      history, log := [], [];
    }

    method HandleStreamDelta(data: Payload)
      requires Valid()
      modifies this, assembler
      ensures Valid() && history == old(history) + [Delta(data)]
    {
      ghost var before := assembler.View();
      StepSnoc(history, Delta(data));
      if data.Payload? {
        var outcome := assembler.OnDelta(data.contentDelta, data.done);
        if outcome == Appended {
          Emit(DeltaUpdate(if assembler.streamId.Some? then assembler.streamId.value else 0,
                           Concat(assembler.parts)));
        }
      }
      history := history + [Delta(data)];
    }

    method CloseStreamOnFinal()
      requires Valid()
      modifies this, assembler
      ensures Valid() && history == old(history) + [FinalFrame]
    {
      StepSnoc(history, FinalFrame);
      var ended := assembler.CloseOnFinal();
      if ended.Some? {
        Emit(EndFinal(ended.value));
      }
      history := history + [FinalFrame];
    }

    method CloseStreamOnDisconnect()
      requires Valid()
      modifies this, assembler
      ensures Valid() && history == old(history) + [Disconnected]
    {
      StepSnoc(history, Disconnected);
      var ended := assembler.CloseOnDisconnect();
      if ended.Some? {
        Emit(EndInterrupted(ended.value.0, ended.value.1));
      }
      history := history + [Disconnected];
    }

    method Emit(e: StreamEvent)
      modifies this`log
      ensures log == old(log) + [e]
    {
      log := log + [e];
    }
  }
}
