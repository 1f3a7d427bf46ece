/**
 * Reconnecting with exponential backoff, in the SDK's transport and in the widget. Delays are exact
 * reals; sockets, timers and pending connects are named so that each can act at any time.
 */
module Reconnect {
  import opened Common

  datatype Policy = Policy(maxAttempts: int, baseDelayMs: real, backoffFactor: real, maxDelayMs: real)

  /**
   * The SDK awaits its address before it opens a socket, keeps a socket that is already open, and
   * cancels the last timer on disconnect; the widget does none of the three.
   */
  datatype Config = Config(policy: Policy, awaitsUrl: bool, keepsOpenSocket: bool, cancelsTimer: bool)

  const DEFAULT_POLICY := Policy(5, 1000.0, 2.0, 30000.0)
  const WIDGET_POLICY := Policy(5, 1000.0, 2.0, 10000.0)
  const WIDGET := Config(WIDGET_POLICY, false, false, false)

  function Sdk(policy: Policy): Config {
    Config(policy, true, true, true)
  }

  datatype Note = Opened | Scheduled(attempt: nat, delayMs: real)

  /**
   * `live` are the sockets that have not reported their close, `open` those of them that opened and
   * `closing` those closed by hand, which can no longer open.
   */
  datatype State = State(
    attempts: nat,
    isManualClose: bool,
    ws: Option<nat>,
    open: set<nat>,
    live: set<nat>,
    closing: set<nat>,
    sockets: nat,
    awaiting: nat,
    timers: set<nat>,
    reconnectTimer: Option<nat>,
    armed: nat,
    log: seq<Note>)

  datatype Event =
    | ConnectCalled(factoryOk: bool)
    | UrlSettles(ok: bool, factoryOk: bool)
    | SocketOpens(socket: nat)
    | SocketCloses(socket: nat)
    | TimerFires(timer: nat, factoryOk: bool)
    | Disconnect

  const START := State(0, false, None, {}, {}, {}, 0, 0, {}, None, 0, [])

  // ---- the policy -----------------------------------------------------------------------------

  function Pow(x: real, n: nat): real {
    if n == 0 then 1.0 else x * Pow(x, n - 1)
  }

  function Min(x: real, y: real): real {
    if x <= y then x else y
  }

  function ComputeReconnectDelay(p: Policy, attempt: int): real {
    var exponent := if attempt - 1 > 0 then attempt - 1 else 0;
    Min(p.baseDelayMs * Pow(p.backoffFactor, exponent), p.maxDelayMs)
  }

  predicate ShouldReconnect(attempt: nat, isManualClose: bool, p: Policy) {
    !isManualClose && attempt < p.maxAttempts
  }

  // ---- one step ---------------------------------------------------------------------------------

  /** The part of `connect` that follows the address: clear the manual flag and open a socket. */
  function Establish(c: Config, s: State, factoryOk: bool): State {
    if c.keepsOpenSocket && s.ws.Some? && s.ws.value in s.open then s
    else
      var t := s.(isManualClose := false);
      if factoryOk then t.(ws := Some(s.sockets), live := s.live + {s.sockets}, sockets := s.sockets + 1)
      else t
  }

  function Connect(c: Config, s: State, factoryOk: bool): State {
    if c.awaitsUrl then s.(awaiting := s.awaiting + 1) else Establish(c, s, factoryOk)
  }

  function Schedule(c: Config, s: State): State {
    var n := s.attempts + 1;
    s.(attempts := n, timers := s.timers + {s.armed}, reconnectTimer := Some(s.armed), armed := s.armed + 1,
       log := s.log + [Scheduled(n, ComputeReconnectDelay(c.policy, n))])
  }

  predicate CanOpen(s: State, i: nat) {
    i in s.live && i !in s.open && i !in s.closing
  }

  /** `disconnect` closes the socket that `ws` names, and no other. */
  function CloseByHand(s: State): State {
    var t := s.(isManualClose := true, ws := None);
    if s.ws.Some? && s.ws.value in s.live
    then t.(open := s.open - {s.ws.value}, closing := s.closing + {s.ws.value}) else t
  }

  function Step(c: Config, s: State, e: Event): State {
    match e
    case ConnectCalled(factoryOk) => Connect(c, s, factoryOk)
    case UrlSettles(ok, factoryOk) =>
      if s.awaiting == 0 then s
      else
        var t := s.(awaiting := s.awaiting - 1);
        if ok then Establish(c, t, factoryOk) else t
    case SocketOpens(i) =>
      if CanOpen(s, i) then s.(open := s.open + {i}, attempts := 0, log := s.log + [Opened]) else s
    case SocketCloses(i) =>
      if i !in s.live then s
      else
        var t := s.(live := s.live - {i}, open := s.open - {i}, closing := s.closing - {i});
        if ShouldReconnect(t.attempts, t.isManualClose, c.policy) then Schedule(c, t) else t
    case TimerFires(i, factoryOk) =>
      if i in s.timers then Connect(c, s.(timers := s.timers - {i}), factoryOk) else s
    case Disconnect =>
      var t := CloseByHand(s);
      if c.cancelsTimer && s.reconnectTimer.Some?
      then t.(timers := s.timers - {s.reconnectTimer.value}, reconnectTimer := None) else t
  }

  function Run(c: Config, s: State, h: seq<Event>): State {
    if h == [] then s else Step(c, Run(c, s, Init(h)), Last(h))
  }

  function StateAfter(c: Config, h: seq<Event>): State {
    Run(c, START, h)
  }

  // ---- the budget -------------------------------------------------------------------------------

  /** The delays scheduled since a socket last opened. */
  function SinceOpen(log: seq<Note>): seq<real> {
    if log == [] || Last(log).Opened? then []
    else SinceOpen(Init(log)) + [Last(log).delayMs]
  }

  /** The delays of the first `n` attempts in a row. */
  function Ladder(p: Policy, n: nat): seq<real> {
    if n == 0 then [] else Ladder(p, n - 1) + [ComputeReconnectDelay(p, n)]
  }

  function Sum(delays: seq<real>): real {
    if delays == [] then 0.0 else Sum(Init(delays)) + Last(delays)
  }

  ghost predicate OnLadder(c: Config, s: State) {
    && SinceOpen(s.log) == Ladder(c.policy, s.attempts)
    && (s.attempts > 0 ==> s.attempts <= c.policy.maxAttempts)
  }

  lemma SinceOpenSnoc(log: seq<Note>, n: Note)
    ensures SinceOpen(log + [n]) == if n.Opened? then [] else SinceOpen(log) + [n.delayMs]
  {
    assert Init(log + [n]) == log;
  }

  lemma ScheduleStaysOnLadder(c: Config, s: State)
    requires OnLadder(c, s) && s.attempts < c.policy.maxAttempts
    ensures OnLadder(c, Schedule(c, s))
  {
    SinceOpenSnoc(s.log, Scheduled(s.attempts + 1, ComputeReconnectDelay(c.policy, s.attempts + 1)));
  }

  lemma StepStaysOnLadder(c: Config, s: State, e: Event)
    requires OnLadder(c, s)
    ensures OnLadder(c, Step(c, s, e))
  {
    match e
    case SocketOpens(i) => SinceOpenSnoc(s.log, Opened);
    case SocketCloses(i) =>
      if ShouldReconnect(s.attempts, s.isManualClose, c.policy) {
        ScheduleStaysOnLadder(c, s.(live := s.live - {i}, open := s.open - {i}, closing := s.closing - {i}));
      }
    case _ => assert Step(c, s, e).log == s.log;
  }

  /**
   * In every run, over any number of sockets and timers, the delays scheduled since a socket last
   * opened are the first steps of the backoff ladder, one per attempt, and never more than
   * `maxAttempts` of them.
   */
  lemma {:induction false} DelaysFollowTheLadder(c: Config, h: seq<Event>)
    ensures var s := StateAfter(c, h);
            && SinceOpen(s.log) == Ladder(c.policy, s.attempts)
            && (s.attempts > 0 ==> s.attempts <= c.policy.maxAttempts)
  {
    if h != [] {
      DelaysFollowTheLadder(c, Init(h));
      StepStaysOnLadder(c, StateAfter(c, Init(h)), Last(h));
    }
  }

  lemma {:induction false} LadderLength(p: Policy, n: nat)
    ensures |Ladder(p, n)| == n
    ensures forall i :: 0 <= i < n ==> Ladder(p, n)[i] == ComputeReconnectDelay(p, i + 1)
  {
    if n > 0 {
      LadderLength(p, n - 1);
    }
  }

  lemma {:induction false} PowAtLeastOne(x: real, n: nat)
    requires x >= 1.0
    ensures Pow(x, n) >= 1.0
  {
    if n > 0 {
      PowAtLeastOne(x, n - 1);
      assert x * Pow(x, n - 1) >= 1.0 * Pow(x, n - 1);
    }
  }

  lemma DelayGrows(p: Policy, n: nat)
    requires p.baseDelayMs >= 0.0 && p.backoffFactor >= 1.0 && n >= 1
    ensures ComputeReconnectDelay(p, n) <= ComputeReconnectDelay(p, n + 1) <= p.maxDelayMs
  {
    var x, y := Pow(p.backoffFactor, n - 1), Pow(p.backoffFactor, n);
    PowAtLeastOne(p.backoffFactor, n - 1);
    assert y == p.backoffFactor * x >= x;
    assert p.baseDelayMs * x <= p.baseDelayMs * y;
  }

  /** With a factor of at least one delays never shrink from attempt to attempt and respect the cap. */
  lemma {:induction false} DelaysNeverShrink(p: Policy, i: nat, j: nat)
    requires p.baseDelayMs >= 0.0 && p.backoffFactor >= 1.0 && 1 <= i <= j
    ensures ComputeReconnectDelay(p, i) <= ComputeReconnectDelay(p, j) <= p.maxDelayMs
  {
    if i < j {
      DelaysNeverShrink(p, i, j - 1);
      DelayGrows(p, j - 1);
    }
  }

  lemma Scaled(base: real, factor: real, x: real)
    ensures base * (factor * x) == factor * (base * x)
  {
  }

  lemma CutAtTheCap(value: real, factor: real, cap: real)
    requires value >= 0.0 && factor >= 1.0
    ensures Min(value, cap) < cap ==> Min(factor * value, cap) == Min(factor * Min(value, cap), cap)
    ensures Min(value, cap) >= cap ==> Min(factor * value, cap) == cap
  {
    assert factor * value >= value;
  }

  lemma DelayIs(p: Policy, n: nat, power: real)
    requires n >= 1 && power == Pow(p.backoffFactor, n - 1)
    ensures ComputeReconnectDelay(p, n) == Min(p.baseDelayMs * power, p.maxDelayMs)
  {
    if n == 1 {
      assert power == Pow(p.backoffFactor, 0);
    }
  }

  /** The delay backs off: the first is the base, and each is `factor` times the one before until the cap. */
  lemma DelayBacksOff(p: Policy, n: nat, delay: real, next: real)
    requires n >= 1 && p.baseDelayMs >= 0.0 && p.backoffFactor >= 1.0
    requires delay == ComputeReconnectDelay(p, n) && next == ComputeReconnectDelay(p, n + 1)
    ensures n == 1 ==> delay == if p.baseDelayMs <= p.maxDelayMs then p.baseDelayMs else p.maxDelayMs
    ensures next == if delay < p.maxDelayMs && p.backoffFactor * delay <= p.maxDelayMs
                    then p.backoffFactor * delay else p.maxDelayMs
    ensures delay <= p.maxDelayMs
  {
    hide ComputeReconnectDelay;
    var power := Pow(p.backoffFactor, n - 1);
    DelayIs(p, n, power);
    DelayIs(p, n + 1, p.backoffFactor * power);
    PowAtLeastOne(p.backoffFactor, n - 1);
    var value := p.baseDelayMs * power;
    assert value >= 0.0;
    Scaled(p.baseDelayMs, p.backoffFactor, power);
    CutAtTheCap(value, p.backoffFactor, p.maxDelayMs);
  }

  lemma SumLadder(p: Policy, n: nat)
    requires n > 0
    ensures Sum(Ladder(p, n)) == Sum(Ladder(p, n - 1)) + ComputeReconnectDelay(p, n)
  {
    assert Init(Ladder(p, n)) == Ladder(p, n - 1);
  }

  lemma {:induction false} TotalGrows(p: Policy, m: nat, n: nat)
    requires p.baseDelayMs >= 0.0 && p.backoffFactor >= 0.0 && p.maxDelayMs >= 0.0 && m <= n
    ensures Sum(Ladder(p, m)) <= Sum(Ladder(p, n))
  {
    if m < n {
      TotalGrows(p, m, n - 1);
      PowNonNegative(p.backoffFactor, n - 1);
      assert ComputeReconnectDelay(p, n) >= 0.0;
      SumLadder(p, n);
    }
  }

  lemma {:induction false} PowNonNegative(x: real, n: nat)
    requires x >= 0.0
    ensures Pow(x, n) >= 0.0
  {
    if n > 0 {
      PowNonNegative(x, n - 1);
    }
  }

  /** In every run the delays since the last open add up to at most the whole ladder. */
  lemma ReconnectBudget(c: Config, h: seq<Event>)
    requires var p := c.policy; p.baseDelayMs >= 0.0 && p.backoffFactor >= 0.0 && p.maxDelayMs >= 0.0
    requires c.policy.maxAttempts >= 0
    ensures |SinceOpen(StateAfter(c, h).log)| <= c.policy.maxAttempts
    ensures Sum(SinceOpen(StateAfter(c, h).log)) <= Sum(Ladder(c.policy, c.policy.maxAttempts))
  {
    DelaysFollowTheLadder(c, h);
    var n := StateAfter(c, h).attempts;
    LadderLength(c.policy, n);
    TotalGrows(c.policy, n, c.policy.maxAttempts);
  }

  lemma Ladder5(p: Policy)
    ensures Sum(Ladder(p, 5)) ==
            ComputeReconnectDelay(p, 1) + ComputeReconnectDelay(p, 2) + ComputeReconnectDelay(p, 3) +
            ComputeReconnectDelay(p, 4) + ComputeReconnectDelay(p, 5)
  {
    SumLadder(p, 5);
    SumLadder(p, 4);
    SumLadder(p, 3);
    SumLadder(p, 2);
    SumLadder(p, 1);
  }

  lemma PowersOfTwo()
    ensures Pow(2.0, 0) == 1.0 && Pow(2.0, 1) == 2.0 && Pow(2.0, 2) == 4.0
    ensures Pow(2.0, 3) == 8.0 && Pow(2.0, 4) == 16.0
  {
    assert Pow(2.0, 4) == 2.0 * Pow(2.0, 3) && Pow(2.0, 3) == 2.0 * Pow(2.0, 2);
  }

  lemma WidgetTotal()
    ensures Sum(Ladder(WIDGET_POLICY, 5)) == 25000.0
  {
    PowersOfTwo();
    Ladder5(WIDGET_POLICY);
  }

  lemma DefaultTotal()
    ensures Sum(Ladder(DEFAULT_POLICY, 5)) == 31000.0
  {
    PowersOfTwo();
    Ladder5(DEFAULT_POLICY);
  }

  /** The widget waits 25 seconds at most between two successful opens, the SDK by default 31. */
  lemma TotalWaits(h: seq<Event>)
    ensures Sum(SinceOpen(StateAfter(WIDGET, h).log)) <= 25000.0
    ensures Sum(SinceOpen(StateAfter(Sdk(DEFAULT_POLICY), h).log)) <= 31000.0
  {
    ReconnectBudget(WIDGET, h);
    WidgetTotal();
    ReconnectBudget(Sdk(DEFAULT_POLICY), h);
    DefaultTotal();
  }

  // ---- the budget is used up ------------------------------------------------------------------------

  /** The newest socket is on its way after `n` failed attempts in a row, and nothing else is pending. */
  predicate Trying(s: State, n: nat) {
    && s.attempts == n && !s.isManualClose && s.awaiting == 0 && s.timers == {} && s.open == {} && s.closing == {}
    && s.sockets > 0 && s.live == {s.sockets - 1}
  }

  /** A connect up to where its socket is on its way. */
  lemma FirstTry(c: Config) returns (h: seq<Event>)
    ensures Trying(StateAfter(c, h), 0) && StateAfter(c, h).log == []
  {
    h := [] + [ConnectCalled(true)];
    RunSnoc(c, START, [], ConnectCalled(true));
    if c.awaitsUrl {
      RunSnoc(c, START, h, UrlSettles(true, true));
      h := h + [UrlSettles(true, true)];
    }
  }

  /** The socket fails, the timer fires, and the next one is on its way. */
  lemma NextTry(c: Config, h: seq<Event>, n: nat) returns (g: seq<Event>)
    requires Trying(StateAfter(c, h), n) && n < c.policy.maxAttempts
    ensures Trying(StateAfter(c, g), n + 1)
    ensures StateAfter(c, g).log
            == StateAfter(c, h).log + [Scheduled(n + 1, ComputeReconnectDelay(c.policy, n + 1))]
  {
    var s := StateAfter(c, h);
    var closes, fires := SocketCloses(s.sockets - 1), TimerFires(s.armed, true);
    RunSnoc(c, START, h, closes);
    RunSnoc(c, START, h + [closes], fires);
    g := h + [closes] + [fires];
    if c.awaitsUrl {
      RunSnoc(c, START, g, UrlSettles(true, true));
      g := g + [UrlSettles(true, true)];
    }
  }

  /** Every stretch of the ladder is climbed in some run, whatever the policy. */
  lemma {:induction false} LadderIsClimbed(c: Config, n: nat) returns (h: seq<Event>)
    requires n <= c.policy.maxAttempts
    ensures Trying(StateAfter(c, h), n) && SinceOpen(StateAfter(c, h).log) == Ladder(c.policy, n)
  {
    if n == 0 {
      h := FirstTry(c);
    } else {
      var g := LadderIsClimbed(c, n - 1);
      h := NextTry(c, g, n - 1);
      SinceOpenSnoc(StateAfter(c, g).log, Scheduled(n, ComputeReconnectDelay(c.policy, n)));
    }
  }

  /** The waits of five failures in a row: doubled from a second on, in the widget cut at ten. */
  lemma DefaultWaits()
    ensures Ladder(DEFAULT_POLICY, 5) == [1000.0, 2000.0, 4000.0, 8000.0, 16000.0]
    ensures Ladder(WIDGET_POLICY, 5) == [1000.0, 2000.0, 4000.0, 8000.0, 10000.0]
  {
    PowersOfTwo();
    LadderLength(DEFAULT_POLICY, 5);
    LadderLength(WIDGET_POLICY, 5);
  }

  /** Runs in which they come one after another, to the last millisecond of the budget. */
  lemma BudgetsAreMet() returns (widget: seq<Event>, sdk: seq<Event>)
    ensures SinceOpen(StateAfter(WIDGET, widget).log) == [1000.0, 2000.0, 4000.0, 8000.0, 10000.0]
    ensures SinceOpen(StateAfter(Sdk(DEFAULT_POLICY), sdk).log) == [1000.0, 2000.0, 4000.0, 8000.0, 16000.0]
    ensures Sum(SinceOpen(StateAfter(WIDGET, widget).log)) == 25000.0
    ensures Sum(SinceOpen(StateAfter(Sdk(DEFAULT_POLICY), sdk).log)) == 31000.0
  {
    DefaultWaits();
    widget := LadderIsClimbed(WIDGET, 5);
    sdk := LadderIsClimbed(Sdk(DEFAULT_POLICY), 5);
    WidgetTotal();
    DefaultTotal();
  }

  // ---- what a connect does -----------------------------------------------------------------------------

  /** While the client holds an open socket, connecting again makes none, in a client that looks. */
  lemma OpenSocketIsKept(c: Config, h: seq<Event>, e: Event)
    requires var s := StateAfter(c, h); c.keepsOpenSocket && s.ws.Some? && s.ws.value in s.open
    requires e.ConnectCalled? || e.UrlSettles? || e.TimerFires?
    ensures var s, t := StateAfter(c, h), StateAfter(c, h + [e]);
            t.sockets == s.sockets && t.ws == s.ws && t.live == s.live && t.open == s.open &&
            t.isManualClose == s.isManualClose
  {
    RunSnoc(c, START, h, e);
  }

  /** An address that does not come makes no socket and changes nothing else. */
  lemma AddressFails(c: Config, h: seq<Event>, factoryOk: bool)
    requires StateAfter(c, h).awaiting > 0
    ensures var s := StateAfter(c, h);
            StateAfter(c, h + [UrlSettles(false, factoryOk)]) == s.(awaiting := s.awaiting - 1)
  {
    RunSnoc(c, START, h, UrlSettles(false, factoryOk));
  }

  /** Connecting after a disconnect: the address first, if the client awaits it, then the socket. */
  function Connecting(c: Config, factoryOk: bool): seq<Event> {
    if c.awaitsUrl then [ConnectCalled(factoryOk), UrlSettles(true, factoryOk)] else [ConnectCalled(factoryOk)]
  }

  /**
   * A connect undoes a disconnect: the client holds a socket it never had before, which may open, and a
   * loss of it will be answered by a reconnect again; if the socket cannot be made it has none.
   */
  lemma ConnectRevives(c: Config, h: seq<Event>, factoryOk: bool)
    requires StateAfter(c, h).awaiting == 0
    ensures var s, t := StateAfter(c, h + [Disconnect]), StateAfter(c, h + [Disconnect] + Connecting(c, factoryOk));
            && !t.isManualClose && t.awaiting == 0 && t.attempts == s.attempts && t.timers == s.timers
            && (if factoryOk then
                  t.ws == Some(s.sockets) && t.sockets == s.sockets + 1 && CanOpen(t, s.sockets) &&
                  t.live == s.live + {s.sockets}
                else t.ws == None && t.sockets == s.sockets && t.live == s.live)
  {
    var g := h + [Disconnect];
    RunSnoc(c, START, h, Disconnect);
    RunSnoc(c, START, g, ConnectCalled(factoryOk));
    SocketsStayInOrder(c, g);
    if c.awaitsUrl {
      RunSnoc(c, START, g + [ConnectCalled(factoryOk)], UrlSettles(true, factoryOk));
      assert g + [ConnectCalled(factoryOk)] + [UrlSettles(true, factoryOk)] == g + Connecting(c, factoryOk);
    }
  }

  // ---- what a disconnect leaves behind -------------------------------------------------------------

  /** Nothing is left that could open a socket by itself, and none is open. */
  predicate Quiet(s: State) {
    s.awaiting == 0 && s.timers == {} && s.live <= s.closing && s.open == {}
  }

  predicate NobodyCalls(g: seq<Event>) {
    forall e :: e in g ==> !e.ConnectCalled?
  }

  /** Nobody calls `disconnect` either. */
  predicate OnItsOwn(g: seq<Event>) {
    NobodyCalls(g) && Disconnect !in g
  }

  /** Sockets are open or closing only while they live, and never both. */
  ghost predicate SocketsInOrder(s: State) {
    && s.open <= s.live && s.closing <= s.live && s.open !! s.closing
    && (forall i :: i in s.live ==> i < s.sockets)
  }

  lemma StepKeepsOrder(c: Config, s: State, e: Event)
    requires SocketsInOrder(s)
    ensures SocketsInOrder(Step(c, s, e))
  {
  }

  lemma {:induction false} SocketsStayInOrder(c: Config, h: seq<Event>)
    ensures SocketsInOrder(StateAfter(c, h))
  {
    if h != [] {
      SocketsStayInOrder(c, Init(h));
      StepKeepsOrder(c, StateAfter(c, Init(h)), Last(h));
    }
  }

  /** From a quiet state no socket is made, none opens and nothing is scheduled. */
  lemma {:induction false} QuietStaysClosed(c: Config, s: State, g: seq<Event>)
    requires Quiet(s) && s.isManualClose && NobodyCalls(g)
    ensures var t := Run(c, s, g);
            Quiet(t) && t.isManualClose && t.sockets == s.sockets && t.log == s.log
  {
    if g != [] {
      assert Last(g) in g;
      assert forall e :: e in Init(g) ==> e in g;
      QuietStaysClosed(c, s, Init(g));
    }
  }

  lemma RunSnoc(c: Config, s: State, g: seq<Event>, e: Event)
    ensures Run(c, s, g + [e]) == Step(c, Run(c, s, g), e)
  {
    assert Init(g + [e]) == g;
  }

  /** No socket is open, and none opened since `s`. */
  predicate StaysShut(s: State, t: State) {
    t.open == {} && Opened !in t.log[if |s.log| <= |t.log| then |s.log| else 0..]
  }

  lemma {:induction false} LogGrows(c: Config, s: State, g: seq<Event>)
    ensures s.log <= Run(c, s, g).log
  {
    if g != [] {
      LogGrows(c, s, Init(g));
    }
  }

  lemma OpensInTheEnd(c: Config, s: State, g: seq<Event>, i: nat)
    requires CanOpen(Run(c, s, g), i)
    ensures !StaysShut(s, Run(c, s, g + [SocketOpens(i)]))
  {
    RunSnoc(c, s, g, SocketOpens(i));
    LogGrows(c, s, g);
  }

  /** A socket that may still open does. */
  lemma UnclosedOpens(c: Config, s: State, i: nat) returns (g: seq<Event>)
    requires CanOpen(s, i)
    ensures OnItsOwn(g) && !StaysShut(s, Run(c, s, g))
  {
    OpensInTheEnd(c, s, [], i);
    g := [] + [SocketOpens(i)];
  }

  /** An awaited address arrives, and the socket made for it opens. */
  lemma AddressOpens(c: Config, s: State) returns (g: seq<Event>)
    requires SocketsInOrder(s) && s.awaiting > 0 && s.open == {} && c.awaitsUrl
    ensures OnItsOwn(g) && !StaysShut(s, Run(c, s, g))
  {
    var url := UrlSettles(true, true);
    RunSnoc(c, s, [], url);
    OpensInTheEnd(c, s, [] + [url], s.sockets);
    g := [] + [url] + [SocketOpens(s.sockets)];
  }

  /** A pending timer fires and connects. */
  lemma TimerOpens(c: Config, s: State, i: nat) returns (g: seq<Event>)
    requires SocketsInOrder(s) && i in s.timers && s.awaiting == 0 && s.open == {}
    ensures OnItsOwn(g) && !StaysShut(s, Run(c, s, g))
  {
    var fire, url := TimerFires(i, true), UrlSettles(true, true);
    RunSnoc(c, s, [], fire);
    if c.awaitsUrl {
      RunSnoc(c, s, [] + [fire], url);
      OpensInTheEnd(c, s, [] + [fire] + [url], s.sockets);
      g := [] + [fire] + [url] + [SocketOpens(s.sockets)];
    } else {
      OpensInTheEnd(c, s, [] + [fire], s.sockets);
      g := [] + [fire] + [SocketOpens(s.sockets)];
    }
  }

  /** A run without a call to `connect` at whose end a socket is open all the same. */
  lemma Reopens(c: Config, s: State) returns (g: seq<Event>)
    requires SocketsInOrder(s) && !Quiet(s) && (s.awaiting > 0 ==> c.awaitsUrl)
    ensures OnItsOwn(g) && !StaysShut(s, Run(c, s, g))
  {
    if s.open != {} {
      g := [];
    } else if !(s.live <= s.closing) {
      var i :| i in s.live && i !in s.closing;
      g := UnclosedOpens(c, s, i);
    } else if s.awaiting > 0 {
      g := AddressOpens(c, s);
    } else {
      var i :| i in s.timers;
      g := TimerOpens(c, s, i);
    }
  }

  /** Nothing is pending, and no socket closed by hand will on closing ask for another. */
  predicate Finished(c: Config, s: State) {
    Quiet(s) && (s.isManualClose || s.live == {} || s.attempts >= c.policy.maxAttempts)
  }

  lemma {:induction false} FinishedStaysShut(c: Config, s: State, g: seq<Event>)
    requires Finished(c, s) && NobodyCalls(g)
    ensures Finished(c, Run(c, s, g)) && Run(c, s, g).log == s.log
  {
    if g != [] {
      assert Last(g) in g;
      assert forall e :: e in Init(g) ==> e in g;
      FinishedStaysShut(c, s, Init(g));
    }
  }

  lemma {:induction false} RunConcat(c: Config, s: State, f: seq<Event>, g: seq<Event>)
    ensures Run(c, s, f + g) == Run(c, Run(c, s, f), g)
  {
    if g == [] {
      assert f + g == f;
    } else {
      RunConcat(c, s, f, Init(g));
      AppendInit(f, g);
      RunSnoc(c, s, f + Init(g), Last(g));
    }
  }

  /** A socket closed by hand closes, and since the flag was cleared meanwhile asks for another. */
  lemma ClosingReopens(c: Config, s: State, i: nat) returns (g: seq<Event>)
    requires SocketsInOrder(s) && Quiet(s) && !s.isManualClose && i in s.live && s.attempts < c.policy.maxAttempts
    ensures OnItsOwn(g) && !StaysShut(s, Run(c, s, g))
  {
    var close := [] + [SocketCloses(i)];
    RunSnoc(c, s, [], SocketCloses(i));
    var u := Run(c, s, close);
    StepKeepsOrder(c, s, SocketCloses(i));
    assert s.armed in u.timers;
    g := TimerOpens(c, u, s.armed);
    RunConcat(c, s, close, g);
    LogGrows(c, u, g);
    g := close + g;
  }

  /** A manager left to itself stays shut exactly if it is finished. */
  lemma StaysShutIffFinished(c: Config, s: State)
    requires SocketsInOrder(s) && (s.awaiting > 0 ==> c.awaitsUrl)
    ensures Finished(c, s) <==> forall g :: OnItsOwn(g) ==> StaysShut(s, Run(c, s, g))
  {
    if Finished(c, s) {
      forall g | OnItsOwn(g)
        ensures StaysShut(s, Run(c, s, g))
      {
        FinishedStaysShut(c, s, g);
      }
    } else if !Quiet(s) {
      var g := Reopens(c, s);
    } else {
      var i :| i in s.live;
      var g := ClosingReopens(c, s, i);
    }
  }

  lemma {:induction false} AwaitingNeedsUrl(c: Config, h: seq<Event>)
    ensures StateAfter(c, h).awaiting > 0 ==> c.awaitsUrl
  {
    if h != [] {
      AwaitingNeedsUrl(c, Init(h));
    }
  }

  /** What must not be pending when `disconnect` is called for it to be final. */
  predicate SafeToDisconnect(c: Config, s: State) {
    && s.awaiting == 0
    && (if c.cancelsTimer && s.reconnectTimer.Some? then s.timers <= {s.reconnectTimer.value}
        else s.timers == {})
    && (forall i :: i in s.live && i !in s.closing ==> s.ws == Some(i))
  }

  lemma SafeIsQuiet(c: Config, s: State)
    requires SocketsInOrder(s)
    ensures Quiet(Step(c, s, Disconnect)) <==> SafeToDisconnect(c, s)
  {
    var t := Step(c, s, Disconnect);
    if SafeToDisconnect(c, s) {
      assert forall i :: i in t.open ==> i in s.live && i !in s.closing;
    }
    if Quiet(t) {
      forall i | i in s.live && i !in s.closing
        ensures s.ws == Some(i)
      {
        assert i in t.closing;
      }
    }
  }

  /**
   * After a disconnect no socket is open or opens without a new call to `connect` if and only if no
   * connect was awaiting its address, no timer was pending - in the SDK, none but the last one armed -
   * and no socket was left but the one the client holds.
   */
  lemma DisconnectIsFinal(c: Config, h: seq<Event>)
    ensures var s := StateAfter(c, h);
            var t := Step(c, s, Disconnect);
            SafeToDisconnect(c, s) <==>
            forall g :: NobodyCalls(g) ==> StaysShut(t, Run(c, t, g))
  {
    var s := StateAfter(c, h);
    var t := Step(c, s, Disconnect);
    SocketsStayInOrder(c, h);
    SocketsStayInOrder(c, h + [Disconnect]);
    RunSnoc(c, START, h, Disconnect);
    SafeIsQuiet(c, s);
    AwaitingNeedsUrl(c, h);
    if Quiet(t) {
      forall g | NobodyCalls(g)
        ensures StaysShut(t, Run(c, t, g))
      {
        QuietStaysClosed(c, t, g);
      }
    } else {
      var g := Reopens(c, t);
    }
  }

  // ---- the ways a disconnect is not final ------------------------------------------------------------

  /** One step of a run from the start. */
  lemma Plays(c: Config, h: seq<Event>, e: Event)
    ensures StateAfter(c, h + [e]) == Step(c, StateAfter(c, h), e)
  {
    RunSnoc(c, START, h, e);
  }

  /** The SDK: `disconnect` during the wait for the address. */
  lemma AwaitedAddressReopens() returns (h: seq<Event>)
    ensures !SafeToDisconnect(Sdk(DEFAULT_POLICY), StateAfter(Sdk(DEFAULT_POLICY), h))
    ensures StateAfter(Sdk(DEFAULT_POLICY), h).awaiting > 0
  {
    h := [] + [ConnectCalled(true)];
    Plays(Sdk(DEFAULT_POLICY), [], ConnectCalled(true));
  }

  /** Two calls to `connect` before either socket opens: the client holds the second one only. */
  lemma TwoSockets(c: Config) returns (h: seq<Event>)
    requires c == Sdk(DEFAULT_POLICY)
    ensures var s := StateAfter(c, h);
            && s.awaiting == 0 && s.timers == {} && s.reconnectTimer == None && s.attempts == 0 && s.armed == 0
            && s.live == {0, 1} && s.open == {} && s.closing == {} && s.ws == Some(1) && !s.isManualClose
  {
    var call, url := ConnectCalled(true), UrlSettles(true, true);
    Plays(c, [], call);
    Plays(c, [] + [call], url);
    Plays(c, [] + [call] + [url], call);
    Plays(c, [] + [call] + [url] + [call], url);
    h := [] + [call] + [url] + [call] + [url];
  }

  /** The SDK: the first of two sockets is closed by nobody and opens after the disconnect. */
  lemma OrphanOpens() returns (h: seq<Event>)
    ensures var c := Sdk(DEFAULT_POLICY);
            var s := StateAfter(c, h);
            && s.awaiting == 0 && s.timers == {} && !SafeToDisconnect(c, s)
            && StateAfter(c, h + [Disconnect] + [SocketOpens(0)]).open == {0}
  {
    var c := Sdk(DEFAULT_POLICY);
    h := TwoSockets(c);
    Plays(c, h, Disconnect);
    Plays(c, h + [Disconnect], SocketOpens(0));
  }

  /** The SDK: both sockets failed and each armed a timer, of which only the last is cancelled. */
  lemma OlderTimerReopens() returns (h: seq<Event>)
    ensures var c := Sdk(DEFAULT_POLICY);
            var s := StateAfter(c, h);
            && s.awaiting == 0 && s.live == {} && s.timers == {0, 1} && s.reconnectTimer == Some(1)
            && !SafeToDisconnect(c, s)
  {
    var c := Sdk(DEFAULT_POLICY);
    h := TwoSockets(c);
    Plays(c, h, SocketCloses(0));
    Plays(c, h + [SocketCloses(0)], SocketCloses(1));
    h := h + [SocketCloses(0)] + [SocketCloses(1)];
  }

  /** The widget: the one pending timer is not cancelled. */
  lemma WidgetTimerReopens() returns (h: seq<Event>)
    ensures var s := StateAfter(WIDGET, h);
            && s.live == {} && s.timers == {0} && !SafeToDisconnect(WIDGET, s)
  {
    Plays(WIDGET, [], ConnectCalled(true));
    Plays(WIDGET, [] + [ConnectCalled(true)], SocketCloses(0));
    h := [] + [ConnectCalled(true)] + [SocketCloses(0)];
  }

  // ---- the class --------------------------------------------------------------------------------

  class Connection {
    const config: Config
    var reconnectAttempts: nat
    var isManualClose: bool
    var ws: Option<nat>
    var open: set<nat>
    var live: set<nat>
    ghost var closing: set<nat>
    var sockets: nat
    var awaiting: nat
    var timers: set<nat>
    var reconnectTimer: Option<nat>
    var armed: nat
    ghost var log: seq<Note>

    ghost function View(): State
      reads this
    {
      State(reconnectAttempts, isManualClose, ws, open, live, closing, sockets, awaiting, timers,
            reconnectTimer, armed, log)
    }

    constructor (config: Config)
      ensures View() == START && this.config == config
    {
      this.config := config;
      reconnectAttempts, isManualClose, ws, open, live, closing := 0, false, None, {}, {}, {};
      sockets, awaiting, timers, reconnectTimer, armed, log := 0, 0, {}, None, 0, [];
    }

    method ConnectTo(factoryOk: bool)
      modifies this
      ensures View() == Step(config, old(View()), ConnectCalled(factoryOk))
    {
      if config.awaitsUrl {
        awaiting := awaiting + 1;
      } else {
        OpenSocket(factoryOk);
      }
    }

    method OnUrl(ok: bool, factoryOk: bool)
      requires awaiting > 0
      modifies this
      ensures View() == Step(config, old(View()), UrlSettles(ok, factoryOk))
    {
      awaiting := awaiting - 1;
      if ok {
        OpenSocket(factoryOk);
      }
    }

    method OpenSocket(factoryOk: bool)
      modifies this`isManualClose, this`ws, this`live, this`sockets
      ensures View() == Establish(config, old(View()), factoryOk)
    {
      if config.keepsOpenSocket && ws.Some? && ws.value in open {
        return;
      }
      isManualClose := false;
      if factoryOk {
        ws, live, sockets := Some(sockets), live + {sockets}, sockets + 1;
      }
    }

    method OnOpen(i: nat)
      requires CanOpen(View(), i)
      modifies this
      ensures View() == Step(config, old(View()), SocketOpens(i))
    {
      reconnectAttempts, open, log := 0, open + {i}, log + [Opened];
    }

    method OnClose(i: nat)
      requires i in live
      modifies this
      ensures View() == Step(config, old(View()), SocketCloses(i))
    {
      live, open, closing := live - {i}, open - {i}, closing - {i};
      if !isManualClose && reconnectAttempts < config.policy.maxAttempts {
        ScheduleReconnect();
      }
    }

    method ScheduleReconnect()
      modifies this
      ensures View() == Schedule(config, old(View()))
    {
      reconnectAttempts := reconnectAttempts + 1;
      var delay := ComputeReconnectDelay(config.policy, reconnectAttempts);
      timers, reconnectTimer, armed := timers + {armed}, Some(armed), armed + 1;
      log := log + [Scheduled(reconnectAttempts, delay)];
    }

    method OnTimer(i: nat, factoryOk: bool)
      requires i in timers
      modifies this
      ensures View() == Step(config, old(View()), TimerFires(i, factoryOk))
    {
      timers := timers - {i};
      ConnectTo(factoryOk);
    }

    method Disconnect()
      modifies this
      ensures View() == Step(config, old(View()), Event.Disconnect)
    {
      isManualClose := true;
      if config.cancelsTimer && reconnectTimer.Some? {
        timers, reconnectTimer := timers - {reconnectTimer.value}, None;
      }
      if ws.Some? {
        CloseSocket(ws.value);
        ws := None;
      }
    }

    /** `close()` on a socket: without effect once it has reported its close. */
    method CloseSocket(i: nat)
      modifies this`open, this`closing
      ensures i in live ==> open == old(open) - {i} && closing == old(closing) + {i}
      ensures i !in live ==> open == old(open) && closing == old(closing)
    {
      if i in live {
        open, closing := open - {i}, closing + {i};
      }
    }
  }
}
