/**
 * Microphone capture: a start that awaits permission, a stop that can overtake it, and the streams
 * and audio contexts the two acquire and release.
 */
module Capture {
  import opened Common

  /** The five handles of a live session; a handle's number tells sessions apart. */
  datatype Handles = Handles(
    stream: Option<nat>,
    ctx: Option<nat>,
    source: Option<nat>,
    processor: Option<nat>,
    mute: Option<nat>)

  /** Streams and audio contexts acquired, released, and dropped by a graph that failed half way. */
  datatype Ledger = Ledger(
    acquired: nat,
    released: nat,
    dropped: nat,
    contexts: nat,
    closed: nat,
    droppedContexts: nat)

  /** `pending` holds the generation of each start that awaits permission. */
  datatype State = State(
    active: bool,
    starting: bool,
    generation: nat,
    handles: Handles,
    pending: seq<nat>,
    ledger: Ledger)

  datatype Event =
    | Start(supported: bool)
    | Granted(k: nat)
    | GrantedButGraphThrows(k: nat, contextMade: bool)
    | Denied(k: nat)
    | Stop

  const NO_HANDLES := Handles(None, None, None, None, None)
  const OFF := State(false, false, 0, NO_HANDLES, [], Ledger(0, 0, 0, 0, 0, 0))

  // ---- one step -------------------------------------------------------------------------------

  function OnStart(s: State, supported: bool): State {
    if s.active || s.starting || !supported then s
    else s.(generation := s.generation + 1, starting := true, pending := s.pending + [s.generation + 1])
  }

  /** The start `k` has its answer; whatever it does next, it is no longer starting. */
  function Resume(s: State, k: nat): State
    requires k < |s.pending|
  {
    s.(pending := s.pending[..k] + s.pending[k + 1..], starting := false)
  }

  function OnGranted(s: State, k: nat): State
    requires k < |s.pending|
  {
    var t, l := Resume(s, k), s.ledger.(acquired := s.ledger.acquired + 1);
    if s.pending[k] != s.generation then t.(ledger := l.(released := l.released + 1))
    else
      var id := Some(s.ledger.acquired);
      t.(active := true, handles := Handles(id, id, id, id, id), ledger := l.(contexts := l.contexts + 1))
  }

  function OnGraphThrows(s: State, k: nat, contextMade: bool): State
    requires k < |s.pending|
  {
    if s.pending[k] != s.generation then OnGranted(s, k)
    else
      var made, l := if contextMade then 1 else 0, s.ledger;
      Resume(s, k).(ledger := l.(acquired := l.acquired + 1, dropped := l.dropped + 1,
                                 contexts := l.contexts + made,
                                 droppedContexts := l.droppedContexts + made))
  }

  /** The ledger after the stream and the context held, if any, are let go. */
  function Released(l: Ledger, stream: Option<nat>, ctx: Option<nat>): Ledger {
    l.(released := l.released + (if stream.Some? then 1 else 0),
       closed := l.closed + (if ctx.Some? then 1 else 0))
  }

  function OnStop(s: State): State {
    s.(generation := s.generation + 1, active := false, handles := NO_HANDLES,
       ledger := Released(s.ledger, s.handles.stream, s.handles.ctx))
  }

  function Step(s: State, e: Event): State {
    match e
    case Start(supported) => OnStart(s, supported)
    case Granted(k) => if k < |s.pending| then OnGranted(s, k) else s
    case GrantedButGraphThrows(k, contextMade) =>
      if k < |s.pending| then OnGraphThrows(s, k, contextMade) else s
    case Denied(k) => if k < |s.pending| then Resume(s, k) else s
    case Stop => OnStop(s)
  }

  function StateAfter(h: seq<Event>): State {
    if h == [] then OFF else Step(StateAfter(Init(h)), Last(h))
  }

  // ---- conservation ---------------------------------------------------------------------------

  predicate AllSet(h: Handles) {
    h.stream.Some? && h.ctx.Some? && h.source.Some? && h.processor.Some? && h.mute.Some?
  }

  ghost predicate Conserved(s: State) {
    && |s.pending| <= 1
    && (s.starting <==> |s.pending| == 1)
    && (s.starting ==> !s.active && 1 <= s.pending[0] <= s.generation)
    && (if s.active then AllSet(s.handles) else s.handles == NO_HANDLES)
    && (var l, held := s.ledger, if s.active then 1 else 0;
        && l.acquired == l.released + l.dropped + held
        && l.contexts == l.closed + l.droppedContexts + held)
  }

  lemma ThrowConserves(s: State, k: nat, contextMade: bool)
    requires Conserved(s) && k < |s.pending|
    ensures Conserved(OnGraphThrows(s, k, contextMade))
    ensures Conserved(OnGranted(s, k))
  {
  }

  lemma StepConserves(s: State, e: Event)
    requires Conserved(s)
    ensures Conserved(Step(s, e))
  {
    if e.Granted? && e.k < |s.pending| {
      ThrowConserves(s, e.k, false);
    } else if e.GrantedButGraphThrows? && e.k < |s.pending| {
      ThrowConserves(s, e.k, e.contextMade);
    }
  }

  /**
   * At every point of every interleaving one start at most awaits permission; the session is active
   * exactly when all five handles are set, and otherwise none is; and every stream and context
   * acquired was released, is held by the active session, or was dropped by a failed audio graph.
   */
  lemma {:induction false} CaptureIsConserved(h: seq<Event>)
    ensures Conserved(StateAfter(h))
  {
    if h != [] {
      CaptureIsConserved(Init(h));
      StepConserves(StateAfter(Init(h)), Last(h));
    }
  }

  /** The event builds the graph of a start that no stop has overtaken, and fails. */
  predicate FailsLive(s: State, e: Event) {
    e.GrantedButGraphThrows? && e.k < |s.pending| && s.pending[e.k] == s.generation
  }

  predicate LiveFailure(h: seq<Event>, i: nat)
    requires i < |h|
  {
    FailsLive(StateAfter(h[..i]), h[i])
  }

  function LiveFailures(h: seq<Event>): set<nat> {
    set i: nat | i < |h| && LiveFailure(h, i)
  }

  /** The live failures that came after the audio context had been made. */
  function LateFailures(h: seq<Event>): set<nat> {
    set i: nat | i < |h| && LiveFailure(h, i) && h[i].contextMade
  }

  lemma StepDrops(s: State, e: Event)
    ensures var l, t := s.ledger, Step(s, e).ledger;
            && t.dropped == l.dropped + (if FailsLive(s, e) then 1 else 0)
            && t.droppedContexts == l.droppedContexts + (if FailsLive(s, e) && e.contextMade then 1 else 0)
  {
  }

  lemma FailuresOfInit(h: seq<Event>, n: nat)
    requires h != [] && n == |h| - 1
    ensures LiveFailures(h) == LiveFailures(Init(h)) + (if LiveFailure(h, n) then {n} else {})
    ensures LateFailures(h) ==
            LateFailures(Init(h)) + (if LiveFailure(h, n) && h[n].contextMade then {n} else {})
  {
    forall i: nat | i < n
      ensures LiveFailure(h, i) <==> LiveFailure(Init(h), i)
    {
      assert Init(h)[..i] == h[..i];
    }
  }

  /** One stream is dropped for each live failure, and one context for each of the late ones. */
  lemma {:induction false} DroppedAreLiveFailures(h: seq<Event>)
    ensures StateAfter(h).ledger.dropped == |LiveFailures(h)|
    ensures StateAfter(h).ledger.droppedContexts == |LateFailures(h)|
  {
    if h == [] {
      assert LiveFailures(h) == {} && LateFailures(h) == {};
    } else {
      var n := |h| - 1;
      DroppedAreLiveFailures(Init(h));
      FailuresOfInit(h, n);
      StepDrops(StateAfter(Init(h)), Last(h));
      assert h[..n] == Init(h);
      assert n !in LiveFailures(Init(h)) && n !in LateFailures(Init(h));
    }
  }

  lemma EmptyHasSizeZero(s: set<nat>)
    ensures |s| == 0 <==> forall i: nat :: i !in s
  {
    if |s| != 0 {
      assert s != {};
    }
  }

  /**
   * Streams balance to what is held if and only if no audio graph failed under a live start, and
   * contexts if and only if none did after its context was made.
   */
  lemma BalancedUnlessGraphFails(h: seq<Event>)
    ensures var s := StateAfter(h);
            var held := if s.active then 1 else 0;
            && (s.ledger.acquired == s.ledger.released + held <==>
                forall i: nat :: i < |h| ==> !LiveFailure(h, i))
            && (s.ledger.contexts == s.ledger.closed + held <==>
                forall i: nat :: i < |h| && LiveFailure(h, i) ==> !h[i].contextMade)
  {
    CaptureIsConserved(h);
    DroppedAreLiveFailures(h);
    EmptyHasSizeZero(LiveFailures(h));
    EmptyHasSizeZero(LateFailures(h));
    assert forall i: nat :: i in LiveFailures(h) <==> i < |h| && LiveFailure(h, i);
    assert forall i: nat :: i in LateFailures(h) <==> i < |h| && LiveFailure(h, i) && h[i].contextMade;
  }

  /** A stream that leaks: the graph throws, and neither a handle nor a later stop lets it go. */
  lemma FailedGraphLeaks()
    ensures var s := StateAfter([Start(true), GrantedButGraphThrows(0, true), Stop]);
            && !s.active && s.handles == NO_HANDLES
            && s.ledger.acquired == 1 && s.ledger.released == 0
            && s.ledger.contexts == 1 && s.ledger.closed == 0
  {
    var h := [Start(true), GrantedButGraphThrows(0, true), Stop];
    assert Init(h) == [Start(true), GrantedButGraphThrows(0, true)];
    assert Init(Init(h)) == [Start(true)];
  }

  // ---- a start and the stop that overtakes it -------------------------------------------------------

  /** Events that leave a waiting start waiting. */
  predicate LeavesWaiting(e: Event) {
    e.Start? || e.Stop?
  }

  lemma {:induction false} WaitingStart(h: seq<Event>, g: seq<Event>)
    requires StateAfter(h).pending != [] && forall e :: e in g ==> LeavesWaiting(e)
    ensures StateAfter(h + g).pending == StateAfter(h).pending
    ensures StateAfter(h + g).generation >= StateAfter(h).generation
    ensures StateAfter(h + g).generation == StateAfter(h).generation <==> Stop !in g
  {
    if g == [] {
      assert h + g == h;
    } else {
      assert Last(g) in g;
      assert forall e :: e in Init(g) ==> e in g;
      WaitingStart(h, Init(g));
      CaptureIsConserved(h + Init(g));
      AppendInit(h, g);
      assert Init(h + g) == h + Init(g);
      assert Stop in g <==> Stop in Init(g) || Last(g) == Stop;
    }
  }

  /**
   * A start goes live when its permission arrives if and only if no stop came while it waited; a
   * start overtaken by a stop only releases the stream it was given.
   */
  lemma LiveUnlessOvertaken(h: seq<Event>, g: seq<Event>)
    requires StateAfter(h).pending == [] && StateAfter(h + [Start(true)]).pending != []
    requires forall e :: e in g ==> LeavesWaiting(e)
    ensures var s := StateAfter(h + [Start(true)] + g);
            var t := StateAfter(h + [Start(true)] + g + [Granted(0)]);
            && (t.active <==> Stop !in g)
            && t.ledger.acquired == s.ledger.acquired + 1
            && t.ledger.released == s.ledger.released + (if Stop in g then 1 else 0)
            && t.pending == []
  {
    var f := h + [Start(true)];
    assert Init(f) == h;
    assert Init(f + g + [Granted(0)]) == f + g;
    CaptureIsConserved(h);
    CaptureIsConserved(f + g);
    WaitingStart(f, g);
  }

  /** A refused permission, or a graph that fails, ends the start: nothing is held and the next one may begin. */
  lemma FailedStartIsOver(h: seq<Event>, e: Event)
    requires StateAfter(h).pending != [] && StateAfter(h).pending[0] == StateAfter(h).generation
    requires e == Denied(0) || e == GrantedButGraphThrows(0, true) || e == GrantedButGraphThrows(0, false)
    ensures var s, t := StateAfter(h), StateAfter(h + [e]);
            && t.pending == [] && !t.starting && !t.active && t.handles == NO_HANDLES
            && t.ledger.released == s.ledger.released && t.ledger.closed == s.ledger.closed
            && t.ledger.acquired == s.ledger.acquired + (if e.Denied? then 0 else 1)
            && StateAfter(h + [e] + [Start(true)]).pending == [t.generation + 1]
  {
    CaptureIsConserved(h);
    assert Init(h + [e]) == h && Init(h + [e] + [Start(true)]) == h + [e];
  }

  /** A stop ends the session: nothing is held any more, and a start that still waits will not go live. */
  lemma StopEndsAll(h: seq<Event>)
    ensures var s, t := StateAfter(h), StateAfter(h + [Stop]);
            && !t.active && t.handles == NO_HANDLES && t.pending == s.pending && t.starting == s.starting
            && (forall g :: g in t.pending ==> g != t.generation)
            && t.ledger.released == s.ledger.released + (if s.active then 1 else 0)
            && t.ledger.closed == s.ledger.closed + (if s.active then 1 else 0)
  {
    CaptureIsConserved(h);
    assert Init(h + [Stop]) == h;
  }

  // ---- the class --------------------------------------------------------------------------------

  datatype StartOutcome = Waiting | AlreadyActive | Unsupported

  class MicCapture {
    var active: bool
    var starting: bool
    var generation: nat
    var stream: Option<nat>
    var ctx: Option<nat>
    var source: Option<nat>
    var processor: Option<nat>
    var mute: Option<nat>
    ghost var pending: seq<nat>
    ghost var ledger: Ledger

    ghost function View(): State
      reads this
    {
      State(active, starting, generation, Handles(stream, ctx, source, processor, mute), pending, ledger)
    }

    constructor ()
      ensures View() == OFF
    {
      active, starting, generation := false, false, 0;
      stream, ctx, source, processor, mute := None, None, None, None, None;
      pending, ledger := [], Ledger(0, 0, 0, 0, 0, 0);
    }

    /** Up to the request for permission; `gen` is what the start remembers across the wait. */
    method StartCapture(supported: bool) returns (r: StartOutcome, gen: nat)
      modifies this
      ensures View() == Step(old(View()), Event.Start(supported))
      ensures r == if old(active || starting) then AlreadyActive
                   else if !supported then Unsupported else Waiting
      ensures r == Waiting ==> gen == generation
    {
      gen := generation;
      if active || starting {
        return AlreadyActive, gen;
      }
      if !supported {
        return Unsupported, gen;
      }
      generation := generation + 1;
      gen := generation;
      starting := true;
      pending := pending + [gen];
      return Waiting, gen;
    }

    /** The rest of start `k` when permission arrives with stream `id`. */
    method OnPermission(ghost k: nat, gen: nat, id: nat)
      requires k < |pending| && pending[k] == gen && id == ledger.acquired
      modifies this
      ensures View() == Step(old(View()), Granted(k))
    {
      ledger := ledger.(acquired := ledger.acquired + 1);
      if gen != generation {
        ledger := ledger.(released := ledger.released + 1);
      } else {
        ledger := ledger.(contexts := ledger.contexts + 1);
        stream, ctx, source, processor, mute := Some(id), Some(id), Some(id), Some(id), Some(id);
        active := true;
      }
      pending := pending[..k] + pending[k + 1..];
      starting := false;
    }

    /** The same when building the audio graph throws: no handle is kept, the error passes on. */
    method OnPermissionGraphThrows(ghost k: nat, gen: nat, ghost contextMade: bool)
      requires k < |pending| && pending[k] == gen
      modifies this
      ensures View() == Step(old(View()), GrantedButGraphThrows(k, contextMade))
    {
      ledger := ledger.(acquired := ledger.acquired + 1);
      if gen != generation {
        ledger := ledger.(released := ledger.released + 1);
      } else {
        ghost var made := if contextMade then 1 else 0;
        ledger := ledger.(dropped := ledger.dropped + 1, contexts := ledger.contexts + made,
                          droppedContexts := ledger.droppedContexts + made);
      }
      pending := pending[..k] + pending[k + 1..];
      starting := false;
    }

    method OnDenied(ghost k: nat)
      requires k < |pending|
      modifies this
      ensures View() == Step(old(View()), Denied(k))
    {
      pending := pending[..k] + pending[k + 1..];
      starting := false;
    }

    /** Takes the processing nodes down. */
    method DisconnectGraph()
      modifies this`processor, this`source, this`mute
      ensures processor == None && source == None && mute == None
    {
      if processor.Some? {
        processor := None;
      }
      if source.Some? {
        source := None;
      }
      if mute.Some? {
        mute := None;
      }
    }

    /** Stops the tracks and closes the context; a failing close does not hold anything up. */
    method ReleaseMedia()
      modifies this`stream, this`ctx, this`ledger
      ensures stream == None && ctx == None
      ensures ledger == Released(old(ledger), old(stream), old(ctx))
    {
      if stream.Some? {
        ledger := ledger.(released := ledger.released + 1);
        stream := None;
      }
      if ctx.Some? {
        ledger := ledger.(closed := ledger.closed + 1);
        ctx := None;
      }
    }

    method StopCapture()
      modifies this
      ensures View() == Step(old(View()), Event.Stop)
    {
      generation := generation + 1;
      active := false;
      DisconnectGraph();
      ReleaseMedia();
    }
  }
}
