/**
 * The session and its connection managers: every connect makes a new one and forgets the one before,
 * which keeps its timers and its socket; a disconnect reaches the newest only.
 */
module Managers {
  import opened Common
  import opened Reconnect

  /** The managers made so far, oldest first, and the one the session holds. */
  datatype Session = Session(managers: seq<State>, current: Option<nat>)

  /** `Of` is something that happens to one of the managers by itself. */
  datatype SessionEvent =
    | SessionConnects
    | SessionDisconnects
    | Of(manager: nat, event: Event)

  const NEW_SESSION := Session([], None)

  predicate HappensByItself(e: Event) {
    !e.ConnectCalled? && !e.Disconnect?
  }

  function SessionStep(c: Config, s: Session, e: SessionEvent): Session {
    match e
    case SessionConnects =>
      Session(s.managers + [Reconnect.Step(c, START, ConnectCalled(true))], Some(|s.managers|))
    case SessionDisconnects =>
      if s.current.Some? && s.current.value < |s.managers| then
        var i := s.current.value;
        Session(s.managers[i := Reconnect.Step(c, s.managers[i], Disconnect)], None)
      else s.(current := None)
    case Of(i, event) =>
      if i < |s.managers| && HappensByItself(event)
      then s.(managers := s.managers[i := Reconnect.Step(c, s.managers[i], event)]) else s
  }

  function SessionRun(c: Config, s: Session, h: seq<SessionEvent>): Session {
    if h == [] then s else SessionStep(c, SessionRun(c, s, Init(h)), Last(h))
  }

  function SessionAfter(c: Config, h: seq<SessionEvent>): Session {
    SessionRun(c, NEW_SESSION, h)
  }

  ghost predicate InOrder(c: Config, s: Session) {
    && (s.current.Some? ==> s.current.value < |s.managers|)
    && forall i :: 0 <= i < |s.managers| ==>
         SocketsInOrder(s.managers[i]) && (s.managers[i].awaiting > 0 ==> c.awaitsUrl)
  }

  lemma StepKeepsInOrder(c: Config, s: Session, e: SessionEvent)
    requires InOrder(c, s)
    ensures InOrder(c, SessionStep(c, s, e))
  {
    match e
    case SessionConnects => StepKeepsOrder(c, START, ConnectCalled(true));
    case SessionDisconnects =>
      if s.current.Some? {
        StepKeepsOrder(c, s.managers[s.current.value], Disconnect);
      }
    case Of(i, event) =>
      if i < |s.managers| && HappensByItself(event) {
        StepKeepsOrder(c, s.managers[i], event);
      }
  }

  lemma {:induction false} AlwaysInOrder(c: Config, h: seq<SessionEvent>)
    ensures InOrder(c, SessionAfter(c, h))
  {
    if h != [] {
      AlwaysInOrder(c, Init(h));
      StepKeepsInOrder(c, SessionAfter(c, Init(h)), Last(h));
    }
  }

  // ---- after a disconnect -----------------------------------------------------------------------------

  predicate NoConnects(g: seq<SessionEvent>) {
    SessionConnects !in g
  }

  /** What happens to manager `i`. */
  function Part(g: seq<SessionEvent>, i: nat): seq<Event> {
    if g == [] then []
    else
      var e := Last(g);
      if e.Of? && e.manager == i && HappensByItself(e.event) then Part(Init(g), i) + [e.event] else Part(Init(g), i)
  }

  /** A session without a current manager runs each of its managers by itself. */
  lemma {:induction false} RunsApart(c: Config, s: Session, g: seq<SessionEvent>, i: nat)
    requires s.current.None? && NoConnects(g) && i < |s.managers|
    ensures var t := SessionRun(c, s, g);
            && t.current.None? && |t.managers| == |s.managers|
            && t.managers[i] == Run(c, s.managers[i], Part(g, i))
    ensures OnItsOwn(Part(g, i))
  {
    if g != [] {
      var e := Last(g);
      assert e in g && forall x :: x in Init(g) ==> x in g;
      RunsApart(c, s, Init(g), i);
      if e.Of? && e.manager == i && HappensByItself(e.event) {
        RunSnoc(c, s.managers[i], Part(Init(g), i), e.event);
      }
    }
  }

  function Lifted(g: seq<Event>, i: nat): seq<SessionEvent> {
    if g == [] then [] else Lifted(Init(g), i) + [Of(i, Last(g))]
  }

  lemma {:induction false} LiftedIsPart(g: seq<Event>, i: nat)
    requires OnItsOwn(g)
    ensures NoConnects(Lifted(g, i)) && Part(Lifted(g, i), i) == g
  {
    if g != [] {
      assert Last(g) in g && forall e :: e in Init(g) ==> e in g;
      LiftedIsPart(Init(g), i);
      assert Init(Lifted(g, i)) == Lifted(Init(g), i);
    }
  }

  /** No socket of any manager is open, and none opened since `s`. */
  predicate AllShut(s: Session, t: Session) {
    |t.managers| == |s.managers| && forall i :: 0 <= i < |s.managers| ==> StaysShut(s.managers[i], t.managers[i])
  }

  /** Nothing is left that the disconnect does not reach, in the current manager or in any other. */
  predicate SafeForAll(c: Config, s: Session) {
    forall i :: 0 <= i < |s.managers| ==>
      if s.current == Some(i) then SafeToDisconnect(c, s.managers[i]) else Finished(c, s.managers[i])
  }

  ghost predicate StaysAllShut(c: Config, s: Session) {
    forall g :: NoConnects(g) ==> AllShut(s, SessionRun(c, s, g))
  }

  lemma SafeIsFinished(c: Config, s: Session)
    requires InOrder(c, s)
    ensures var t := SessionStep(c, s, SessionDisconnects);
            SafeForAll(c, s) <==> forall i :: 0 <= i < |t.managers| ==> Finished(c, t.managers[i])
  {
    var t := SessionStep(c, s, SessionDisconnects);
    forall i | 0 <= i < |s.managers|
      ensures (if s.current == Some(i) then SafeToDisconnect(c, s.managers[i]) else Finished(c, s.managers[i]))
              <==> Finished(c, t.managers[i])
    {
      if s.current == Some(i) {
        SafeIsQuiet(c, s.managers[i]);
        assert t.managers[i].isManualClose;
      }
    }
  }

  lemma FinishedStayShut(c: Config, t: Session)
    requires t.current.None? && InOrder(c, t)
    ensures (forall i :: 0 <= i < |t.managers| ==> Finished(c, t.managers[i])) <==> StaysAllShut(c, t)
  {
    if forall i :: 0 <= i < |t.managers| ==> Finished(c, t.managers[i]) {
      forall g | NoConnects(g)
        ensures AllShut(t, SessionRun(c, t, g))
      {
        AllRunShut(c, t, g);
      }
    } else {
      var i :| 0 <= i < |t.managers| && !Finished(c, t.managers[i]);
      StaysShutIffFinished(c, t.managers[i]);
      var g :| OnItsOwn(g) && !StaysShut(t.managers[i], Run(c, t.managers[i], g));
      LiftedIsPart(g, i);
      RunsApart(c, t, Lifted(g, i), i);
      assert !AllShut(t, SessionRun(c, t, Lifted(g, i)));
    }
  }

  lemma AllRunShut(c: Config, t: Session, g: seq<SessionEvent>)
    requires t.current.None? && NoConnects(g)
    requires forall i :: 0 <= i < |t.managers| ==> Finished(c, t.managers[i])
    ensures AllShut(t, SessionRun(c, t, g))
  {
    ManagersStay(c, t, g);
    forall i | 0 <= i < |t.managers|
      ensures StaysShut(t.managers[i], SessionRun(c, t, g).managers[i])
    {
      RunsApart(c, t, g, i);
      FinishedStaysShut(c, t.managers[i], Part(g, i));
    }
  }

  lemma {:induction false} ManagersStay(c: Config, s: Session, g: seq<SessionEvent>)
    requires NoConnects(g)
    ensures |SessionRun(c, s, g).managers| == |s.managers|
  {
    if g != [] {
      assert Last(g) in g && forall x :: x in Init(g) ==> x in g;
      ManagersStay(c, s, Init(g));
    }
  }

  /**
   * After the session's disconnect no socket of any of its managers is open or opens without a new
   * connect if and only if the current manager is safe to disconnect and every manager left behind is
   * finished already.
   */
  lemma SessionDisconnectIsFinal(c: Config, h: seq<SessionEvent>)
    ensures SafeForAll(c, SessionAfter(c, h)) <==>
            StaysAllShut(c, SessionStep(c, SessionAfter(c, h), SessionDisconnects))
  {
    var s := SessionAfter(c, h);
    AlwaysInOrder(c, h);
    SafeIsFinished(c, s);
    StepKeepsInOrder(c, s, SessionDisconnects);
    FinishedStayShut(c, SessionStep(c, s, SessionDisconnects));
  }

  // ---- a manager left behind --------------------------------------------------------------------------

  lemma Then(c: Config, h: seq<SessionEvent>, e: SessionEvent)
    ensures SessionAfter(c, h + [e]) == SessionStep(c, SessionAfter(c, h), e)
  {
    assert Init(h + [e]) == h;
  }

  /** The first connection is lost and waits to reconnect. */
  lemma FirstIsLost(c: Config) returns (h: seq<SessionEvent>, s: Session)
    requires c == Sdk(DEFAULT_POLICY)
    ensures s == SessionAfter(c, h) && |s.managers| == 1 && s.current == Some(0)
    ensures var m := s.managers[0];
            m.timers == {0} && m.awaiting == 0 && m.live == {} && m.open == {} && m.closing == {} && m.sockets == 1
            && m.ws == Some(0)
  {
    var url, opens, closes := Of(0, UrlSettles(true, true)), Of(0, SocketOpens(0)), Of(0, SocketCloses(0));
    Then(c, [], SessionConnects);
    Then(c, [] + [SessionConnects], url);
    Then(c, [] + [SessionConnects] + [url], opens);
    Then(c, [] + [SessionConnects] + [url] + [opens], closes);
    h := [] + [SessionConnects] + [url] + [opens] + [closes];
    s := SessionAfter(c, h);
  }

  /** A send meanwhile connects anew, and the second manager opens. */
  lemma SecondOpens(c: Config) returns (h: seq<SessionEvent>, s: Session)
    requires c == Sdk(DEFAULT_POLICY)
    ensures s == SessionAfter(c, h) && |s.managers| == 2 && s.current == Some(1)
    ensures var m := s.managers[0];
            m.timers == {0} && m.awaiting == 0 && m.live == {} && m.open == {} && m.closing == {} && m.sockets == 1
            && m.ws == Some(0)
    ensures s.managers[1].open == {0}
  {
    var g, s0 := FirstIsLost(c);
    var url, opens := Of(1, UrlSettles(true, true)), Of(1, SocketOpens(0));
    Then(c, g, SessionConnects);
    Then(c, g + [SessionConnects], url);
    Then(c, g + [SessionConnects] + [url], opens);
    h := g + [SessionConnects] + [url] + [opens];
    s := SessionAfter(c, h);
  }

  /**
   * The manager left behind reconnects by itself: both are open, so that every frame of the session
   * comes twice, and the disconnect closes the second only.
   */
  lemma LeftBehindStaysOpen() returns (h: seq<SessionEvent>)
    ensures var c := Sdk(DEFAULT_POLICY);
            var s := SessionAfter(c, h);
            && |s.managers| == 2 && s.current == Some(1)
            && s.managers[0].open == {1} && s.managers[1].open == {0}
            && SessionStep(c, s, SessionDisconnects).managers[0].open == {1}
  {
    var c := Sdk(DEFAULT_POLICY);
    var g, s := SecondOpens(c);
    var fires, url, opens := Of(0, TimerFires(0, true)), Of(0, UrlSettles(true, true)), Of(0, SocketOpens(1));
    Then(c, g, fires);
    Then(c, g + [fires], url);
    Then(c, g + [fires] + [url], opens);
    h := g + [fires] + [url] + [opens];
  }
}
