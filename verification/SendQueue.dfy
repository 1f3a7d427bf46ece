/**
 * Sending a message: calls are chained so that one runs at a time, and each waits for an echo of
 * its content on the connection it was sent over, a timeout, or a failure. The server sends the echo
 * of a frame over every connection of the session, those the session no longer uses included.
 */
module SendQueue {
  import opened Common

  /** Where the running call is: `Echoed` is the gap between the echo and the promise settling. */
  datatype Phase = Connecting | Ready | Awaiting(manager: nat) | Echoed

  datatype Active = Active(call: nat, phase: Phase)

  /**
   * An echo names the call whose frame it answers, if it answers one of this session's, and the
   * waiting call it released, if any.
   */
  datatype Note =
    | Frame(call: nat, manager: nat, content: string)
    | Unsent(call: nat)
    | Fulfilled(call: nat)
    | Rejected(call: nat)
    | Echo(manager: nat, content: string, of: Option<nat>, releases: Option<nat>)

  /**
   * `calls` are the contents passed so far, the first `next` of them begun. `manager` is the
   * session's connection manager, `None` after a disconnect; `pendingEcho` is the slot of each.
   * `frames` holds the calls whose frame went out, and over which manager.
   */
  datatype State = State(
    calls: seq<string>,
    next: nat,
    active: Option<Active>,
    manager: Option<nat>,
    managers: nat,
    pendingEcho: map<nat, string>,
    frames: map<nat, nat>,
    log: seq<Note>)

  /**
   * `EchoOf(k, m)` is the echo of the frame of call `k` as it comes over connection `m`, any one and any
   * number of times; `EchoArrives` is that of someone else's frame.
   */
  datatype Event =
    | Call(content: string)
    | Begin(hasSession: bool, connected: bool)
    | ConnectSettles(ok: bool)
    | Transmit(open: bool)
    | EchoOf(k: nat, over: nat)
    | EchoArrives(from: nat, content: string)
    | TimerFires
    | PromiseSettles
    | Reconnect
    | Disconnect

  const IDLE := State([], 0, None, None, 0, map[], map[], [])

  // ---- one step -----------------------------------------------------------------------------

  function NewManager(s: State): State {
    s.(manager := Some(s.managers), managers := s.managers + 1)
  }

  function Content(s: State): string
    requires s.active.Some? && s.active.value.call < |s.calls|
  {
    s.calls[s.active.value.call]
  }

  function Settle(s: State, n: Note): State {
    s.(active := None, log := s.log + [n])
  }

  /** Clear the slot of `m` if it still holds `content`. */
  function Release(slots: map<nat, string>, m: nat, content: string): map<nat, string> {
    if m in slots && slots[m] == content then slots - {m} else slots
  }

  function OnBegin(s: State, hasSession: bool, connected: bool): State
    requires s.active.None? && s.next < |s.calls|
  {
    var t := s.(next := s.next + 1);
    if !hasSession then Settle(t, Rejected(s.next))
    else if connected && s.manager.Some? then t.(active := Some(Active(s.next, Ready)))
    else NewManager(t).(active := Some(Active(s.next, Connecting)))
  }

  function OnTransmit(s: State, open: bool): State
    requires s.active.Some? && s.active.value.call < |s.calls|
  {
    var call, content := s.active.value.call, Content(s);
    if s.manager.None? then
      Settle(s.(log := s.log + [Unsent(call)]), Fulfilled(call))
    else
      var m := s.manager.value;
      var armed := s.pendingEcho[m := content];
      if open then
        s.(pendingEcho := armed, active := Some(Active(call, Awaiting(m))),
           frames := s.frames[call := m], log := s.log + [Frame(call, m, content)])
      else
        Settle(s.(pendingEcho := Release(armed, m, content)), Rejected(call))
  }

  function OnEcho(s: State, from: nat, content: string, of: Option<nat>): State {
    if from in s.pendingEcho && s.pendingEcho[from] == content then
      var cleared := s.(pendingEcho := s.pendingEcho - {from});
      if s.active.Some? && s.active.value.phase == Awaiting(from)
      then cleared.(active := Some(s.active.value.(phase := Echoed)),
                    log := s.log + [Echo(from, content, of, Some(s.active.value.call))])
      else cleared.(log := s.log + [Echo(from, content, of, None)])
    else s.(log := s.log + [Echo(from, content, of, None)])
  }

  /** The frame of call `k` went out, and the session ever made connection `over`. */
  predicate CanEcho(s: State, k: nat, over: nat) {
    k in s.frames && k < |s.calls| && over < s.managers
  }

  function Step(s: State, e: Event): State {
    var running := s.active.Some? && s.active.value.call < |s.calls|;
    match e
    case Call(content) => s.(calls := s.calls + [content])
    case Begin(hasSession, connected) =>
      if s.active.None? && s.next < |s.calls| then OnBegin(s, hasSession, connected) else s
    case ConnectSettles(ok) =>
      if !running || !s.active.value.phase.Connecting? then s
      else if ok then s.(active := Some(s.active.value.(phase := Ready)))
      else Settle(s, Rejected(s.active.value.call))
    case Transmit(open) =>
      if running && s.active.value.phase.Ready? then OnTransmit(s, open) else s
    case EchoOf(k, over) =>
      if CanEcho(s, k, over) then OnEcho(s, over, s.calls[k], Some(k)) else s
    case EchoArrives(from, content) => OnEcho(s, from, content, None)
    case TimerFires =>
      if !running || !s.active.value.phase.Awaiting? then s
      else Settle(s.(pendingEcho := Release(s.pendingEcho, s.active.value.phase.manager, Content(s))),
                  Rejected(s.active.value.call))
    case PromiseSettles =>
      if running && s.active.value.phase.Echoed? then Settle(s, Fulfilled(s.active.value.call)) else s
    case Reconnect => NewManager(s)
    case Disconnect => s.(manager := None)
  }

  function StateAfter(h: seq<Event>): State {
    if h == [] then IDLE else Step(StateAfter(Init(h)), Last(h))
  }

  lemma Then(h: seq<Event>, s: State, e: Event, t: State)
    requires StateAfter(h) == s && Step(s, e) == t
    ensures StateAfter(h + [e]) == t
  {
    assert Init(h + [e]) == h;
  }

  // ---- the slot -------------------------------------------------------------------------------

  /**
   * Only the running call can occupy a slot, the one of the connection its frame went out on, with
   * its own content.
   */
  ghost predicate SlotIsOurs(s: State) {
    && s.next <= |s.calls|
    && (s.active.Some? ==> s.active.value.call + 1 == s.next)
    && s.pendingEcho ==
       if s.active.Some? && s.active.value.phase.Awaiting?
       then map[s.active.value.phase.manager := Content(s)] else map[]
  }

  lemma StepKeepsSlot(s: State, e: Event)
    requires SlotIsOurs(s)
    ensures SlotIsOurs(Step(s, e))
  {
  }

  lemma {:induction false} SlotIsAlwaysOurs(h: seq<Event>)
    ensures SlotIsOurs(StateAfter(h))
  {
    if h != [] {
      SlotIsAlwaysOurs(Init(h));
      StepKeepsSlot(StateAfter(Init(h)), Last(h));
    }
  }

  /** Whenever a call is about to arm a slot every slot is free: no pending echo is overwritten. */
  lemma PendingEchoIsNeverOverwritten(h: seq<Event>)
    ensures var s := StateAfter(h);
            s.active.None? || s.active.value.phase.Ready? ==> s.pendingEcho == map[]
  {
    SlotIsAlwaysOurs(h);
  }

  /** The ways a running call fails. */
  predicate Fails(e: Event, phase: Phase) {
    || (e == TimerFires && phase.Awaiting?)
    || (e == Transmit(false) && phase.Ready?)
    || (e == ConnectSettles(false) && phase.Connecting?)
  }

  /** A call that fails leaves every slot free and the queue ready for the next call. */
  lemma FailureFreesTheQueue(h: seq<Event>, e: Event)
    requires StateAfter(h).active.Some?
    requires Fails(e, StateAfter(h).active.value.phase)
    ensures var t := StateAfter(h + [e]);
            && t.active.None? && t.pendingEcho == map[]
            && (t.next < |t.calls| ==>
                  StateAfter(h + [e, Begin(true, t.manager.Some?)]).active ==
                  Some(Active(t.next, if t.manager.Some? then Ready else Connecting)))
  {
    var t := StateAfter(h + [e]);
    SlotIsAlwaysOurs(h);
    SlotIsAlwaysOurs(h + [e]);
    assert Init(h + [e]) == h;
    assert Init(h + [e, Begin(true, t.manager.Some?)]) == h + [e];
  }

  /**
   * What the next call begins with: on the manager there is, if that is connected; otherwise it connects
   * first, over a manager never used before; and without a session it is rejected and makes none.
   */
  lemma BeginConnectsFirst(h: seq<Event>, hasSession: bool, connected: bool)
    requires StateAfter(h).active.None? && StateAfter(h).next < |StateAfter(h).calls|
    ensures var s, t := StateAfter(h), StateAfter(h + [Begin(hasSession, connected)]);
            && t.next == s.next + 1
            && (if !hasSession then
                  t.active == None && t.log == s.log + [Rejected(s.next)] && t.managers == s.managers &&
                  t.manager == s.manager
                else if connected && s.manager.Some? then
                  t.active == Some(Active(s.next, Ready)) && t.manager == s.manager && t.managers == s.managers
                else
                  t.active == Some(Active(s.next, Connecting)) && t.manager == Some(s.managers) &&
                  IsNew(s, s.managers))
            && (hasSession ==> t.log == s.log)
  {
    assert Init(h + [Begin(hasSession, connected)]) == h;
    ManagersAreCounted(h);
  }

  /** No frame went out over the manager, no echo came over it, and the session does not hold it. */
  ghost predicate IsNew(s: State, m: nat) {
    && s.manager != Some(m) && m !in s.pendingEcho
    && forall n :: n in s.log && n.Frame? ==> n.manager != m
  }

  ghost predicate Counted(s: State) {
    && (s.manager.Some? ==> s.manager.value < s.managers)
    && (forall m :: m in s.pendingEcho ==> m < s.managers)
    && forall n :: n in s.log && n.Frame? ==> n.manager < s.managers
  }

  lemma StepKeepsCounted(s: State, e: Event)
    requires Counted(s)
    ensures Counted(Step(s, e))
  {
  }

  lemma {:induction false} ManagersAreCounted(h: seq<Event>)
    ensures Counted(StateAfter(h))
  {
    if h != [] {
      ManagersAreCounted(Init(h));
      StepKeepsCounted(StateAfter(Init(h)), Last(h));
    }
  }

  // ---- the log --------------------------------------------------------------------------------

  predicate AboutACall(n: Note) {
    !n.Echo?
  }

  predicate Transmits(n: Note) {
    n.Frame? || n.Unsent?
  }

  predicate Settles(n: Note) {
    n.Fulfilled? || n.Rejected?
  }

  /**
   * Two notes about calls, the earlier first: calls come in the order they were made, each has one
   * frame at most or is marked unsent, and nothing about a call follows its settling.
   */
  ghost predicate InOrder(x: Note, y: Note) {
    AboutACall(x) && AboutACall(y) ==>
      && x.call <= y.call
      && (Settles(x) || (Transmits(x) && Transmits(y)) ==> x.call < y.call)
  }

  ghost predicate WellOrdered(log: seq<Note>) {
    forall i, j :: 0 <= i < j < |log| ==> InOrder(log[i], log[j])
  }

  ghost predicate IsSettled(log: seq<Note>, call: nat) {
    Fulfilled(call) in log || Rejected(call) in log
  }

  /** Every begun call but the running one has settled, and what is logged is about begun calls. */
  ghost predicate Accounted(s: State) {
    && (forall n :: n in s.log && AboutACall(n) ==> n.call < s.next)
    && (forall c :: 0 <= c < s.next && (s.active.None? || c != s.active.value.call) ==> IsSettled(s.log, c))
    && (s.active.Some? ==> forall n :: n in s.log && AboutACall(n) && n.call == s.active.value.call ==>
          n.Frame? && (s.active.value.phase.Awaiting? || s.active.value.phase.Echoed?))
    && (forall n :: n in s.log && n.Frame? ==> n.call < |s.calls| && s.calls[n.call] == n.content)
  }

  lemma LogKeepsOrder(log: seq<Note>, n: Note)
    requires WellOrdered(log) && forall x :: x in log ==> InOrder(x, n)
    ensures WellOrdered(log + [n])
  {
    forall i | 0 <= i < |log|
      ensures InOrder(log[i], n)
    {
      assert log[i] in log;
    }
  }

  lemma SettledGrows(log: seq<Note>, n: Note)
    ensures forall c :: IsSettled(log, c) ==> IsSettled(log + [n], c)
    ensures Settles(n) ==> IsSettled(log + [n], n.call)
  {
  }

  lemma EchoKeepsAccounts(s: State, from: nat, content: string, of: Option<nat>)
    requires WellOrdered(s.log) && Accounted(s)
    ensures var t := OnEcho(s, from, content, of);
            WellOrdered(t.log) && Accounted(t)
  {
    var n := Last(OnEcho(s, from, content, of).log);
    LogKeepsOrder(s.log, n);
    SettledGrows(s.log, n);
  }

  /** Settling the running call with one more note about it. */
  lemma SettleKeepsAccounts(s: State, slots: map<nat, string>, n: Note)
    requires SlotIsOurs(s) && WellOrdered(s.log) && Accounted(s)
    requires s.active.Some? && Settles(n) && n.call == s.active.value.call
    ensures var t := Settle(s.(pendingEcho := slots), n);
            WellOrdered(t.log) && Accounted(t)
  {
    LogKeepsOrder(s.log, n);
    SettledGrows(s.log, n);
  }

  lemma TransmitKeepsAccounts(s: State, open: bool)
    requires SlotIsOurs(s) && WellOrdered(s.log) && Accounted(s)
    requires s.active.Some? && s.active.value.phase.Ready?
    ensures WellOrdered(OnTransmit(s, open).log) && Accounted(OnTransmit(s, open))
  {
    var call := s.active.value.call;
    if s.manager.None? {
      LogKeepsOrder(s.log, Unsent(call));
      SettledGrows(s.log, Unsent(call));
      LogKeepsOrder(s.log + [Unsent(call)], Fulfilled(call));
      SettledGrows(s.log + [Unsent(call)], Fulfilled(call));
    } else if open {
      LogKeepsOrder(s.log, Frame(call, s.manager.value, Content(s)));
      SettledGrows(s.log, Frame(call, s.manager.value, Content(s)));
    } else {
      SettleKeepsAccounts(s, OnTransmit(s, open).pendingEcho, Rejected(call));
    }
  }

  lemma BeginKeepsAccounts(s: State, hasSession: bool, connected: bool)
    requires SlotIsOurs(s) && WellOrdered(s.log) && Accounted(s)
    requires s.active.None? && s.next < |s.calls|
    ensures var t := OnBegin(s, hasSession, connected);
            WellOrdered(t.log) && Accounted(t)
  {
    if !hasSession {
      LogKeepsOrder(s.log, Rejected(s.next));
      SettledGrows(s.log, Rejected(s.next));
    }
  }

  lemma StepKeepsAccounts(s: State, e: Event)
    requires SlotIsOurs(s) && WellOrdered(s.log) && Accounted(s)
    ensures WellOrdered(Step(s, e).log) && Accounted(Step(s, e))
  {
    if e.EchoArrives? {
      EchoKeepsAccounts(s, e.from, e.content, None);
    } else if e.EchoOf? && CanEcho(s, e.k, e.over) {
      EchoKeepsAccounts(s, e.over, s.calls[e.k], Some(e.k));
    } else if e.Begin? && s.active.None? && s.next < |s.calls| {
      BeginKeepsAccounts(s, e.hasSession, e.connected);
    } else if s.active.Some? {
      var call, t := s.active.value.call, Step(s, e);
      if e.Transmit? && s.active.value.phase.Ready? {
        TransmitKeepsAccounts(s, e.open);
      } else if t.active.None? {
        SettleKeepsAccounts(s, t.pendingEcho, if e.PromiseSettles? then Fulfilled(call) else Rejected(call));
      }
    }
  }

  /**
   * In every interleaving frames go out in the order of the calls, one per call, and calls settle
   * in that order, each exactly once and after its own frame.
   */
  lemma {:induction false} SendsAreSerialised(h: seq<Event>)
    ensures WellOrdered(StateAfter(h).log)
    ensures Accounted(StateAfter(h))
  {
    if h != [] {
      SendsAreSerialised(Init(h));
      SlotIsAlwaysOurs(Init(h));
      StepKeepsAccounts(StateAfter(Init(h)), Last(h));
    }
  }

  // ---- what a fulfilled send means --------------------------------------------------------------

  /** After its own frame, call `c` was released by an echo of its content on the connection of the frame. */
  ghost predicate SawEcho(log: seq<Note>, c: nat) {
    exists f, e :: 0 <= f < e < |log| && log[f].Frame? && log[f].call == c && Confirms(log[e], log[f])
  }

  predicate Confirms(echo: Note, frame: Note)
    requires frame.Frame?
  {
    echo.Echo? && echo.manager == frame.manager && echo.content == frame.content &&
    echo.releases == Some(frame.call)
  }

  ghost predicate FrameOut(log: seq<Note>, n: Note) {
    n in log
  }

  ghost predicate Confirmed(s: State) {
    && (forall c :: Fulfilled(c) in s.log ==> SawEcho(s.log, c) || Unsent(c) in s.log)
    && (s.active.Some? && s.active.value.phase.Awaiting? && s.active.value.call < |s.calls| ==>
          FrameOut(s.log, Frame(s.active.value.call, s.active.value.phase.manager, Content(s))))
    && (s.active.Some? && s.active.value.phase.Echoed? ==> SawEcho(s.log, s.active.value.call))
  }

  lemma SawEchoGrows(log: seq<Note>, more: seq<Note>, c: nat)
    requires SawEcho(log, c)
    ensures SawEcho(log + more, c)
  {
    var f, e :| 0 <= f < e < |log| && log[f].Frame? && log[f].call == c && Confirms(log[e], log[f]);
    assert (log + more)[f] == log[f] && (log + more)[e] == log[e];
  }

  lemma EchoConfirms(log: seq<Note>, frame: Note, echo: Note)
    requires frame.Frame? && frame in log && Confirms(echo, frame)
    ensures SawEcho(log + [echo], frame.call)
  {
    var f :| 0 <= f < |log| && log[f] == frame;
    var grown := log + [echo];
    assert grown[f] == frame && grown[|log|] == echo;
  }

  lemma NoteKeepsConfirmed(log: seq<Note>, n: Note)
    requires forall c :: Fulfilled(c) in log ==> SawEcho(log, c) || Unsent(c) in log
    requires n.Fulfilled? ==> SawEcho(log, n.call) || Unsent(n.call) in log
    ensures forall c :: Fulfilled(c) in log + [n] ==> SawEcho(log + [n], c) || Unsent(c) in log + [n]
    ensures forall c :: SawEcho(log, c) ==> SawEcho(log + [n], c)
  {
    forall c | SawEcho(log, c)
      ensures SawEcho(log + [n], c)
    {
      SawEchoGrows(log, [n], c);
    }
  }

  lemma EchoKeepsConfirmed(s: State, from: nat, content: string, of: Option<nat>)
    requires SlotIsOurs(s) && Confirmed(s)
    ensures Confirmed(OnEcho(s, from, content, of))
  {
    var t := OnEcho(s, from, content, of);
    var n := Last(t.log);
    NoteKeepsConfirmed(s.log, n);
    if n.releases.Some? {
      EchoConfirms(s.log, Frame(n.releases.value, n.manager, n.content), n);
    }
  }

  lemma TransmitKeepsConfirmed(s: State, open: bool)
    requires SlotIsOurs(s) && Confirmed(s) && s.active.Some? && s.active.value.phase.Ready?
    ensures Confirmed(OnTransmit(s, open))
  {
    var call, t := s.active.value.call, OnTransmit(s, open);
    if s.manager.None? {
      NoteKeepsConfirmed(s.log, Unsent(call));
      NoteKeepsConfirmed(s.log + [Unsent(call)], Fulfilled(call));
    } else {
      NoteKeepsConfirmed(s.log, Last(t.log));
    }
  }

  lemma StepKeepsConfirmed(s: State, e: Event)
    requires SlotIsOurs(s) && Confirmed(s)
    ensures Confirmed(Step(s, e))
  {
    var t := Step(s, e);
    if e.EchoArrives? {
      EchoKeepsConfirmed(s, e.from, e.content, None);
    } else if e.EchoOf? && CanEcho(s, e.k, e.over) {
      EchoKeepsConfirmed(s, e.over, s.calls[e.k], Some(e.k));
    } else if e.Transmit? && s.active.Some? && s.active.value.phase.Ready? {
      TransmitKeepsConfirmed(s, e.open);
    } else if |t.log| == |s.log| + 1 {
      NoteKeepsConfirmed(s.log, Last(t.log));
    }
  }

  /**
   * A send is fulfilled only after an echo equal to its content arrived, after its own frame, on
   * the connection that carried the frame - unless the session had no connection manager left when
   * its turn came: then it is fulfilled although nothing was sent.
   */
  lemma {:induction false} FulfilledMeansEchoed(h: seq<Event>)
    ensures Confirmed(StateAfter(h))
  {
    if h != [] {
      FulfilledMeansEchoed(Init(h));
      SlotIsAlwaysOurs(Init(h));
      StepKeepsConfirmed(StateAfter(Init(h)), Last(h));
    }
  }

  /** A call is fulfilled unsent exactly when the manager is gone as it is about to transmit. */
  lemma UnsentWhenDisconnected(h: seq<Event>, open: bool)
    requires StateAfter(h).active.Some? && StateAfter(h).active.value.phase.Ready?
    ensures var s := StateAfter(h);
            Unsent(s.active.value.call) in StateAfter(h + [Transmit(open)]).log <==> s.manager.None?
  {
    var s := StateAfter(h);
    SendsAreSerialised(h);
    SlotIsAlwaysOurs(h);
    assert Init(h + [Transmit(open)]) == h;
  }

  /** A first call up to where it is about to transmit. */
  lemma FirstConnects(x: string) returns (h: seq<Event>, s: State)
    ensures h == [Call(x), Begin(true, false), ConnectSettles(true)]
    ensures s == State([x], 1, Some(Active(0, Ready)), Some(0), 1, map[], map[], [])
    ensures StateAfter(h) == s
  {
    var s1 := IDLE.(calls := [x]);
    Then([], IDLE, Call(x), s1);
    var s2 := State([x], 1, Some(Active(0, Connecting)), Some(0), 1, map[], map[], []);
    Then([] + [Call(x)], s1, Begin(true, false), s2);
    s := s2.(active := Some(Active(0, Ready)));
    Then([] + [Call(x)] + [Begin(true, false)], s2, ConnectSettles(true), s);
    h := [] + [Call(x)] + [Begin(true, false)] + [ConnectSettles(true)];
  }

  /** The run in which nothing is sent: the session disconnects while the call waits to transmit. */
  lemma FulfilledThoughUnsent(x: string)
    ensures StateAfter([Call(x), Begin(true, false), ConnectSettles(true), Event.Disconnect,
                        Transmit(true)]).log == [Unsent(0), Fulfilled(0)]
  {
    var h, s := FirstConnects(x);
    var s1 := s.(manager := None);
    Then(h, s, Event.Disconnect, s1);
    Then(h + [Event.Disconnect], s1, Transmit(true), Step(s1, Transmit(true)));
    assert h + [Event.Disconnect] + [Transmit(true)] ==
           [Call(x), Begin(true, false), ConnectSettles(true), Event.Disconnect, Transmit(true)];
  }

  /** Whoever's frame it answers, an echo on the right connection releases the call iff the contents are equal. */
  lemma EchoMatchesByContent(h: seq<Event>, content: string)
    requires StateAfter(h).active.Some? && StateAfter(h).active.value.phase.Awaiting?
    requires StateAfter(h).active.value.call < |StateAfter(h).calls|
    ensures var s := StateAfter(h);
            var t := StateAfter(h + [EchoArrives(s.active.value.phase.manager, content)]);
            t.active == Some(s.active.value.(phase := Echoed)) <==> content == Content(s)
  {
    SlotIsAlwaysOurs(h);
    assert Init(h + [EchoArrives(StateAfter(h).active.value.phase.manager, content)]) == h;
  }

  // ---- whose echo it is -------------------------------------------------------------------------

  /** Call `c` was released by the echo of the frame of call `of`, or of nobody's frame here. */
  ghost predicate ReleasedBy(log: seq<Note>, c: nat, of: Option<nat>) {
    exists n :: n in log && n.Echo? && n.releases == Some(c) && n.of == of
  }

  ghost predicate Released(log: seq<Note>, c: nat) {
    exists n :: n in log && n.Echo? && n.releases == Some(c)
  }

  ghost predicate SentOver(log: seq<Note>, k: nat, m: nat, content: string) {
    Frame(k, m, content) in log
  }

  /** The frames kept are those that went out. */
  ghost predicate FramesAreOut(s: State) {
    && (forall k :: k in s.frames ==> k < |s.calls| && SentOver(s.log, k, s.frames[k], s.calls[k]))
    && (forall n :: n in s.log && n.Frame? ==> n.call in s.frames && s.frames[n.call] == n.manager)
  }

  /**
   * An echo that released call `c` came over the connection of its frame, with its content. If it
   * answers another frame, that is of an earlier call with the same content; and if that frame went
   * out on the same connection, its call had been rejected or released before.
   */
  ghost predicate EchoExplained(log: seq<Note>, n: Note)
    requires n.Echo?
  {
    n.releases.Some? ==>
      && SentOver(log, n.releases.value, n.manager, n.content)
      && (n.of.Some? && n.of != n.releases ==>
            && n.of.value < n.releases.value
            && (exists m :: SentOver(log, n.of.value, m, n.content))
            && (SentOver(log, n.of.value, n.manager, n.content) ==>
                  Rejected(n.of.value) in log || Released(log, n.of.value)))
  }

  ghost predicate Explained(s: State) {
    FramesAreOut(s) && forall n :: n in s.log && n.Echo? ==> EchoExplained(s.log, n)
  }

  /** Later notes about other calls leave an explanation as it is. */
  lemma ExplanationStays(log: seq<Note>, more: seq<Note>, n: Note)
    requires n in log && n.Echo? && EchoExplained(log, n)
    requires forall x :: x in more && x.Frame? && n.releases.Some? ==> x.call >= n.releases.value
    ensures EchoExplained(log + more, n)
  {
    if n.releases.Some? && n.of.Some? && n.of != n.releases {
      var m :| SentOver(log, n.of.value, m, n.content);
      assert SentOver(log + more, n.of.value, m, n.content);
      if Released(log, n.of.value) {
        var x :| x in log && x.Echo? && x.releases == Some(n.of.value);
        assert x in log + more;
      }
    }
  }

  /** Only calls begun are released, so a new frame is of no earlier call than any released. */
  lemma AllExplanationsStay(s: State, more: seq<Note>)
    requires Accounted(s) && Explained(s)
    requires forall x :: x in more && x.Frame? ==> s.active.Some? && x.call == s.active.value.call
    requires SlotIsOurs(s)
    ensures forall n :: n in s.log && n.Echo? ==> EchoExplained(s.log + more, n)
  {
    forall n | n in s.log && n.Echo?
      ensures EchoExplained(s.log + more, n)
    {
      assert EchoExplained(s.log, n);
      if n.releases.Some? {
        assert Frame(n.releases.value, n.manager, n.content) in s.log;
      }
      ExplanationStays(s.log, more, n);
    }
  }

  /** A call with a frame that is not running any more was rejected or released. */
  lemma PastCallsAreOver(s: State, k: nat)
    requires SlotIsOurs(s) && WellOrdered(s.log) && Accounted(s) && Confirmed(s) && FramesAreOut(s)
    requires k in s.frames && s.active.Some? && k != s.active.value.call
    ensures k < s.active.value.call
    ensures Rejected(k) in s.log || Released(s.log, k)
  {
    var frame := Frame(k, s.frames[k], s.calls[k]);
    assert frame in s.log;
    if Rejected(k) !in s.log {
      assert IsSettled(s.log, k);
      NeverBoth(s.log, frame, Unsent(k));
      assert SawEcho(s.log, k);
      var f, e :| 0 <= f < e < |s.log| && s.log[f].Frame? && s.log[f].call == k && Confirms(s.log[e], s.log[f]);
      assert s.log[e] in s.log;
    }
  }

  lemma NeverBoth(log: seq<Note>, frame: Note, unsent: Note)
    requires WellOrdered(log) && frame in log && frame.Frame? && unsent.Unsent? && frame.call == unsent.call
    ensures unsent !in log
  {
    var i :| 0 <= i < |log| && log[i] == frame;
    assert forall j :: 0 <= j < |log| && j != i ==> InOrder(log[i], log[j]) || InOrder(log[j], log[i]);
  }

  lemma EchoKeepsExplained(s: State, from: nat, content: string, of: Option<nat>)
    requires SlotIsOurs(s) && WellOrdered(s.log) && Accounted(s) && Confirmed(s) && Explained(s)
    requires of.Some? ==> of.value in s.frames && s.calls[of.value] == content
    ensures Explained(OnEcho(s, from, content, of))
  {
    var t := OnEcho(s, from, content, of);
    var n := Last(t.log);
    AllExplanationsStay(s, [n]);
    if n.releases.Some? {
      if of.Some? && of != n.releases {
        PastCallsAreOver(s, of.value);
        assert SentOver(s.log, of.value, s.frames[of.value], content);
      }
      assert EchoExplained(s.log, n);
    }
    ExplainedGrows(s.log, n);
  }

  lemma ExplainedGrows(log: seq<Note>, n: Note)
    requires n.Echo? && EchoExplained(log, n)
    ensures EchoExplained(log + [n], n)
  {
    if n.releases.Some? && n.of.Some? && n.of != n.releases {
      var m :| SentOver(log, n.of.value, m, n.content);
      assert SentOver(log + [n], n.of.value, m, n.content);
      if Released(log, n.of.value) {
        var x :| x in log && x.Echo? && x.releases == Some(n.of.value);
        assert x in log + [n];
      }
    }
  }

  lemma TransmitKeepsExplained(s: State, open: bool)
    requires SlotIsOurs(s) && Accounted(s) && Explained(s)
    requires s.active.Some? && s.active.value.phase.Ready?
    ensures Explained(OnTransmit(s, open))
  {
    var call, t := s.active.value.call, OnTransmit(s, open);
    if s.manager.None? {
      assert t.log == s.log + [Unsent(call), Fulfilled(call)];
      AllExplanationsStay(s, [Unsent(call), Fulfilled(call)]);
    } else {
      AllExplanationsStay(s, [Last(t.log)]);
    }
  }

  predicate IsQuiet(s: State, e: Event) {
    !e.EchoOf? && !e.EchoArrives? && !(e.Transmit? && s.active.Some? && s.active.value.phase.Ready?)
  }

  /** Steps other than an echo or a transmission log one note at most, no frame and no echo. */
  lemma QuietStepLogs(s: State, e: Event) returns (more: seq<Note>)
    requires IsQuiet(s, e)
    ensures Step(s, e).log == s.log + more && |more| <= 1 && forall n :: n in more ==> Settles(n)
    ensures Step(s, e).frames == s.frames && s.calls <= Step(s, e).calls
  {
    var t := Step(s, e);
    more := if t.log == s.log then [] else [Last(t.log)];
  }

  lemma QuietStepKeepsExplained(s: State, e: Event)
    requires SlotIsOurs(s) && Accounted(s) && Explained(s) && IsQuiet(s, e)
    ensures Explained(Step(s, e))
  {
    var more := QuietStepLogs(s, e);
    AllExplanationsStay(s, more);
    assert forall n :: n in Step(s, e).log <==> n in s.log || n in more;
  }

  lemma StepKeepsExplained(s: State, e: Event)
    requires SlotIsOurs(s) && WellOrdered(s.log) && Accounted(s) && Confirmed(s) && Explained(s)
    ensures Explained(Step(s, e))
  {
    if e.EchoArrives? {
      EchoKeepsExplained(s, e.from, e.content, None);
    } else if e.EchoOf? && CanEcho(s, e.k, e.over) {
      EchoKeepsExplained(s, e.over, s.calls[e.k], Some(e.k));
    } else if IsQuiet(s, e) {
      QuietStepKeepsExplained(s, e);
    } else if e.Transmit? {
      TransmitKeepsExplained(s, e.open);
    }
  }

  lemma {:induction false} EchoesAreExplained(h: seq<Event>)
    ensures Explained(StateAfter(h))
  {
    if h != [] {
      EchoesAreExplained(Init(h));
      SlotIsAlwaysOurs(Init(h));
      SendsAreSerialised(Init(h));
      FulfilledMeansEchoed(Init(h));
      StepKeepsExplained(StateAfter(Init(h)), Last(h));
    }
  }

  predicate Waits(s: State, c: nat, m: nat, content: string) {
    c < |s.calls| && s.active == Some(Active(c, Awaiting(m))) && s.calls[c] == content
  }

  /** The event is an echo of that frame, over the connection on which `c` waits for the same content. */
  predicate Meets(s: State, e: Event, c: nat, of: Option<nat>) {
    match e
    case EchoOf(k, over) => of == Some(k) && CanEcho(s, k, over) && Waits(s, c, over, s.calls[k])
    case EchoArrives(from, content) => of == None && Waits(s, c, from, content)
    case _ => false
  }

  predicate MeetsAt(h: seq<Event>, i: nat, c: nat, of: Option<nat>)
    requires i < |h|
  {
    Meets(StateAfter(h[..i]), h[i], c, of)
  }

  lemma AddedReleases(log: seq<Note>, n: Note, c: nat, of: Option<nat>)
    ensures ReleasedBy(log + [n], c, of) <==>
            ReleasedBy(log, c, of) || (n.Echo? && n.releases == Some(c) && n.of == of)
  {
    if n.Echo? && n.releases == Some(c) && n.of == of {
      assert n in log + [n];
    }
    if ReleasedBy(log, c, of) {
      var x :| x in log && x.Echo? && x.releases == Some(c) && x.of == of;
      assert x in log + [n];
    }
  }

  lemma OnlyEchoesRelease(s: State, e: Event, c: nat, of: Option<nat>)
    requires !e.EchoOf? && !e.EchoArrives?
    ensures ReleasedBy(Step(s, e).log, c, of) <==> ReleasedBy(s.log, c, of)
  {
    var t := Step(s, e);
    if |t.log| == |s.log| + 1 {
      AddedReleases(s.log, Last(t.log), c, of);
    } else if t.log != s.log {
      var call := s.active.value.call;
      assert t.log == s.log + [Unsent(call)] + [Fulfilled(call)];
      AddedReleases(s.log, Unsent(call), c, of);
      AddedReleases(s.log + [Unsent(call)], Fulfilled(call), c, of);
    }
  }

  /** One event has that echo release `c` exactly when the two meet. */
  lemma StepReleases(s: State, e: Event, c: nat, of: Option<nat>)
    requires SlotIsOurs(s)
    ensures ReleasedBy(Step(s, e).log, c, of) <==> ReleasedBy(s.log, c, of) || Meets(s, e, c, of)
  {
    if e.EchoArrives? {
      AddedReleases(s.log, Last(OnEcho(s, e.from, e.content, None).log), c, of);
    } else if !e.EchoOf? {
      OnlyEchoesRelease(s, e, c, of);
    } else if CanEcho(s, e.k, e.over) {
      AddedReleases(s.log, Last(OnEcho(s, e.over, s.calls[e.k], Some(e.k)).log), c, of);
    }
  }

  /**
   * Which echo releases a call: over a whole run the echo of a given frame, the call's own or another,
   * or of nobody's frame here, did so if and only if at some point it arrived over the connection on
   * which the call waited, with the content the call waited for.
   */
  lemma {:induction false} ReleasedIffMet(h: seq<Event>, c: nat, of: Option<nat>)
    ensures ReleasedBy(StateAfter(h).log, c, of) <==> exists i :: 0 <= i < |h| && MeetsAt(h, i, c, of)
  {
    if h != [] {
      var g := Init(h);
      ReleasedIffMet(g, c, of);
      SlotIsAlwaysOurs(g);
      StepReleases(StateAfter(g), Last(h), c, of);
      MeetingsOfInit(h, c, of);
    }
  }

  lemma MeetingsOfInit(h: seq<Event>, c: nat, of: Option<nat>)
    requires h != []
    ensures (exists i :: 0 <= i < |h| && MeetsAt(h, i, c, of)) <==>
            (exists i :: 0 <= i < |Init(h)| && MeetsAt(Init(h), i, c, of)) ||
            Meets(StateAfter(Init(h)), Last(h), c, of)
  {
    var g := Init(h);
    forall i | 0 <= i < |g|
      ensures MeetsAt(h, i, c, of) <==> MeetsAt(g, i, c, of)
    {
      assert g[..i] == h[..i];
    }
    assert h[..|g|] == g;
    assert MeetsAt(h, |g|, c, of) <==> Meets(StateAfter(g), Last(h), c, of);
  }

  // ---- where a mix-up starts ----------------------------------------------------------------------

  /** An earlier call with a frame of the same content on the same connection that was rejected. */
  ghost predicate RejectedTwin(log: seq<Note>, c: nat, m: nat, content: string) {
    exists r :: 0 <= r < c && Rejected(r) in log && SentOver(log, r, m, content)
  }

  /** The echo of an earlier call's frame, sent over another connection, that came over this one. */
  ghost predicate CopyFromElsewhere(log: seq<Note>, c: nat, m: nat, content: string) {
    exists k, m', n :: 0 <= k < c && m' != m && SentOver(log, k, m', content) &&
                       n in log && n.Echo? && n.of == Some(k) && n.manager == m && n.content == content
  }

  /** Two echoes of one frame over one connection. */
  ghost predicate SecondCopy(log: seq<Note>, m: nat, content: string) {
    exists x, y :: x in log && y in log && x != y && AreCopies(x, y) && x.manager == m && x.content == content
  }

  predicate AreCopies(x: Note, y: Note) {
    x.Echo? && y.Echo? && x.of.Some? && x.of == y.of && x.manager == y.manager && x.content == y.content
  }

  ghost predicate ForeignEcho(log: seq<Note>, m: nat, content: string) {
    exists n :: n in log && n.Echo? && n.of.None? && n.manager == m && n.content == content
  }

  /**
   * However long the chain of calls each released by the echo of the one before, it starts with a
   * rejected call of that content, with the echo of a frame sent over another connection, with a
   * second copy of an echo over the same one, or with the echo of somebody else's frame.
   */
  lemma {:induction false} WhereMixUpsStart(h: seq<Event>, n: Note)
    requires n in StateAfter(h).log && n.Echo? && n.releases.Some? && n.of != n.releases
    ensures var log, c := StateAfter(h).log, n.releases.value;
            || RejectedTwin(log, c, n.manager, n.content)
            || CopyFromElsewhere(log, c, n.manager, n.content)
            || SecondCopy(log, n.manager, n.content)
            || ForeignEcho(log, n.manager, n.content)
    decreases n.releases.value
  {
    var log, c, m := StateAfter(h).log, n.releases.value, n.manager;
    EchoesAreExplained(h);
    SendsAreSerialised(h);
    assert EchoExplained(log, n);
    if n.of.Some? {
      var k := n.of.value;
      var m' :| SentOver(log, k, m', n.content);
      if m' == m && Rejected(k) !in log {
        var x :| x in log && x.Echo? && x.releases == Some(k);
        assert EchoExplained(log, x);
        SameFrame(log, Frame(k, m, n.content), Frame(k, x.manager, x.content));
        if x.of == Some(k) {
          assert AreCopies(x, n);
        } else {
          WhereMixUpsStart(h, x);
        }
      }
    }
  }

  lemma SameFrame(log: seq<Note>, x: Note, y: Note)
    requires WellOrdered(log) && x in log && y in log && x.Frame? && y.Frame? && x.call == y.call
    ensures x == y
  {
    var i :| 0 <= i < |log| && log[i] == x;
    var j :| 0 <= j < |log| && log[j] == y;
  }

  /** While the texts sent differ, whatever arrives where and how often, no call gets another's echo. */
  lemma DistinctTextsAreSafe(h: seq<Event>, c: nat, k: nat)
    requires forall i, j :: 0 <= i < j < |StateAfter(h).calls| ==> StateAfter(h).calls[i] != StateAfter(h).calls[j]
    requires ReleasedBy(StateAfter(h).log, c, Some(k))
    ensures k == c
  {
    var s := StateAfter(h);
    EchoesAreExplained(h);
    SendsAreSerialised(h);
    var n :| n in s.log && n.Echo? && n.releases == Some(c) && n.of == Some(k);
    assert EchoExplained(s.log, n);
  }

  // ---- two runs -----------------------------------------------------------------------------------

  /** A second send of a text fulfilled by the echo of the first, which was rejected as timed out. */
  lemma LateEchoCompletesLaterSend(x: string)
    ensures StateAfter([Call(x), Begin(true, false), ConnectSettles(true), Transmit(true), TimerFires,
                        Call(x), Begin(true, true), Transmit(true), EchoOf(0, 0), PromiseSettles]).log ==
            [Frame(0, 0, x), Rejected(0), Frame(1, 0, x), Echo(0, x, Some(0), Some(1)), Fulfilled(1)]
  {
    var g, s := FirstAwaits(x);
    var t := State([x], 1, None, Some(0), 1, map[], s.frames, s.log + [Rejected(0)]);
    assert Release(s.pendingEcho, 0, x) == map[];
    Then(g, s, TimerFires, t);
    var h := SecondIsFulfilled(g + [TimerFires], t, x);
    assert h == [Call(x), Begin(true, false), ConnectSettles(true), Transmit(true), TimerFires,
                 Call(x), Begin(true, true), Transmit(true), EchoOf(0, 0), PromiseSettles];
  }

  /**
   * The first send is fulfilled by its own echo; the copy of that echo over the connection the session
   * opened meanwhile fulfils the second. Nothing was rejected and nobody else sent anything.
   */
  lemma CopyCompletesLaterSend(x: string)
    ensures StateAfter([Call(x), Begin(true, false), ConnectSettles(true), Transmit(true), Reconnect, EchoOf(0, 0),
                        PromiseSettles, Call(x), Begin(true, true), Transmit(true), EchoOf(0, 1), PromiseSettles]).log
            == [Frame(0, 0, x), Echo(0, x, Some(0), Some(0)), Fulfilled(0), Frame(1, 1, x),
                Echo(1, x, Some(0), Some(1)), Fulfilled(1)]
  {
    var g, s := FirstIsFulfilled(x);
    var h := SecondIsFulfilled(g, s, x);
    assert h == [Call(x), Begin(true, false), ConnectSettles(true), Transmit(true), Reconnect, EchoOf(0, 0),
                 PromiseSettles, Call(x), Begin(true, true), Transmit(true), EchoOf(0, 1), PromiseSettles];
  }

  /** The first half of that run. */
  lemma FirstIsFulfilled(x: string) returns (h: seq<Event>, s: State)
    ensures h == [Call(x), Begin(true, false), ConnectSettles(true), Transmit(true), Reconnect, EchoOf(0, 0),
                  PromiseSettles]
    ensures s == State([x], 1, None, Some(1), 2, map[], map[0 := 0],
                       [Frame(0, 0, x), Echo(0, x, Some(0), Some(0)), Fulfilled(0)])
    ensures StateAfter(h) == s
  {
    var g, s0 := FirstAwaits(x);
    var s1 := s0.(manager := Some(1), managers := 2);
    Then(g, s0, Reconnect, s1);
    var s2 := s1.(pendingEcho := map[], active := Some(Active(0, Echoed)),
                  log := s0.log + [Echo(0, x, Some(0), Some(0))]);
    assert s1.pendingEcho - {0} == map[];
    Then(g + [Reconnect], s1, EchoOf(0, 0), s2);
    s := s2.(active := None, log := s2.log + [Fulfilled(0)]);
    Then(g + [Reconnect] + [EchoOf(0, 0)], s2, PromiseSettles, s);
    h := g + [Reconnect] + [EchoOf(0, 0)] + [PromiseSettles];
  }

  /** A first call up to where its frame is out. */
  lemma FirstAwaits(x: string) returns (h: seq<Event>, s: State)
    ensures h == [Call(x), Begin(true, false), ConnectSettles(true), Transmit(true)]
    ensures s == State([x], 1, Some(Active(0, Awaiting(0))), Some(0), 1, map[0 := x], map[0 := 0], [Frame(0, 0, x)])
    ensures StateAfter(h) == s
  {
    var g, s0 := FirstConnects(x);
    s := s0.(active := Some(Active(0, Awaiting(0))), pendingEcho := map[0 := x],
             frames := map[0 := 0], log := [Frame(0, 0, x)]);
    Then(g, s0, Transmit(true), s);
    h := g + [Transmit(true)];
  }

  /** The same text once more, up to where its frame is out. */
  lemma SecondAwaits(h: seq<Event>, s: State, x: string, m: nat) returns (g: seq<Event>, t: State)
    requires StateAfter(h) == s && s.calls == [x] && s.next == 1 && s.active == None && s.pendingEcho == map[]
    requires s.manager == Some(m)
    ensures g == h + [Call(x)] + [Begin(true, true)] + [Transmit(true)] && StateAfter(g) == t
    ensures t == State([x, x], 2, Some(Active(1, Awaiting(m))), Some(m), s.managers, map[m := x],
                       s.frames[1 := m], s.log + [Frame(1, m, x)])
  {
    var s1 := s.(calls := [x, x]);
    Then(h, s, Call(x), s1);
    var s2 := s1.(next := 2, active := Some(Active(1, Ready)));
    Then(h + [Call(x)], s1, Begin(true, true), s2);
    t := s2.(active := Some(Active(1, Awaiting(m))), pendingEcho := map[m := x],
             frames := s.frames[1 := m], log := s.log + [Frame(1, m, x)]);
    Then(h + [Call(x)] + [Begin(true, true)], s2, Transmit(true), t);
    g := h + [Call(x)] + [Begin(true, true)] + [Transmit(true)];
  }

  /** It is fulfilled by the echo of the first as that comes over the connection of the second. */
  lemma SecondIsFulfilled(h: seq<Event>, s: State, x: string) returns (g: seq<Event>)
    requires StateAfter(h) == s && s.calls == [x] && s.next == 1 && s.active == None && s.pendingEcho == map[]
    requires s.frames == map[0 := 0] && s.manager.Some? && s.manager.value < s.managers
    ensures var m := s.manager.value;
            && g == h + [Call(x)] + [Begin(true, true)] + [Transmit(true)] + [EchoOf(0, m)] + [PromiseSettles]
            && StateAfter(g).log == s.log + [Frame(1, m, x)] + [Echo(m, x, Some(0), Some(1))] + [Fulfilled(1)]
  {
    var m := s.manager.value;
    var f, t := SecondAwaits(h, s, x, m);
    var u := Step(t, EchoOf(0, m));
    assert u.active == Some(Active(1, Echoed)) && u.log == t.log + [Echo(m, x, Some(0), Some(1))];
    Then(f, t, EchoOf(0, m), u);
    Then(f + [EchoOf(0, m)], u, PromiseSettles, Step(u, PromiseSettles));
    g := f + [EchoOf(0, m)] + [PromiseSettles];
  }

  // ---- the class --------------------------------------------------------------------------------

  class Sender {
    var queued: seq<string>
    var next: nat
    var active: Option<Active>
    var ws: Option<nat>
    var managers: nat
    var pendingEcho: map<nat, string>
    ghost var frames: map<nat, nat>
    ghost var log: seq<Note>

    ghost function View(): State
      reads this
    {
      State(queued, next, active, ws, managers, pendingEcho, frames, log)
    }

    constructor ()
      ensures View() == IDLE
    {
      queued, next, active, ws, managers, pendingEcho := [], 0, None, None, 0, map[];
      frames, log := map[], [];
    }

    /** Chain one more call behind the ones made before. */
    method SendMessage(content: string)
      modifies this`queued
      ensures View() == Step(old(View()), Call(content))
    {
      queued := queued + [content];
    }

    /** The next chained call starts, when the one before it has settled. */
    method DoSendMessage(hasSession: bool, connected: bool)
      requires active.None? && next < |queued|
      modifies this
      ensures View() == Step(old(View()), Begin(hasSession, connected))
    {
      var call := next;
      next := next + 1;
      if !hasSession {
        log := log + [Rejected(call)];
      } else {
        if ws.None? || !connected {
          Connect();
          active := Some(Active(call, Connecting));
        } else {
          active := Some(Active(call, Ready));
        }
      }
    }

    method Connect()
      modifies this`ws, this`managers
      ensures View() == Step(old(View()), Reconnect)
    {
      ws, managers := Some(managers), managers + 1;
    }

    /** Arm the slot, then send; a send that throws clears the slot again. */
    method SendWithEchoConfirmation(open: bool)
      requires active.Some? && active.value.call < |queued| && active.value.phase.Ready?
      modifies this
      ensures View() == Step(old(View()), Transmit(open))
    {
      var call, content := active.value.call, queued[active.value.call];
      if ws.None? {
        log, active := log + [Unsent(call), Fulfilled(call)], None;
        assert log == old(log) + [Unsent(call)] + [Fulfilled(call)];
        return;
      }
      pendingEcho := pendingEcho[ws.value := content];
      if open {
        log, active := log + [Frame(call, ws.value, content)], Some(Active(call, Awaiting(ws.value)));
        frames := frames[call := ws.value];
      } else {
        ClearSlot(ws.value, content);
        log, active := log + [Rejected(call)], None;
      }
    }

    method ClearSlot(m: nat, content: string)
      modifies this`pendingEcho
      ensures pendingEcho == Release(old(pendingEcho), m, content)
    {
      if m in pendingEcho && pendingEcho[m] == content {
        pendingEcho := pendingEcho - {m};
      }
    }

    /** The handler sees manager and content only; `of` is the frame answered, which it cannot tell. */
    method ResolvePendingEcho(from: nat, content: string, ghost of: Option<nat>)
      requires of.Some? ==> CanEcho(View(), of.value, from) && queued[of.value] == content
      modifies this
      ensures View() == Step(old(View()), if of.Some? then EchoOf(of.value, from) else EchoArrives(from, content))
    {
      ghost var released := None;
      if from in pendingEcho && pendingEcho[from] == content {
        pendingEcho := pendingEcho - {from};
        if active.Some? && active.value.phase == Awaiting(from) {
          released := Some(active.value.call);
          active := Some(active.value.(phase := Echoed));
        }
      }
      log := log + [Echo(from, content, of, released)];
    }

    method OnEchoTimeout()
      requires active.Some? && active.value.call < |queued| && active.value.phase.Awaiting?
      modifies this
      ensures View() == Step(old(View()), TimerFires)
    {
      ClearSlot(active.value.phase.manager, queued[active.value.call]);
      log := log + [Rejected(active.value.call)];
      active := None;
    }

    method OnConnectSettled(ok: bool)
      requires active.Some? && active.value.call < |queued| && active.value.phase.Connecting?
      modifies this
      ensures View() == Step(old(View()), ConnectSettles(ok))
    {
      if ok {
        active := Some(active.value.(phase := Ready));
      } else {
        log, active := log + [Rejected(active.value.call)], None;
      }
    }

    method OnPromiseSettled()
      requires active.Some? && active.value.call < |queued| && active.value.phase.Echoed?
      modifies this
      ensures View() == Step(old(View()), PromiseSettles)
    {
      log, active := log + [Fulfilled(active.value.call)], None;
    }

    method Disconnect()
      modifies this`ws
      ensures View() == Step(old(View()), Event.Disconnect)
    {
      ws := None;
    }
  }
}
