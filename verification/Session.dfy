/**
 * The SDK session: the catch-up run that follows every connect, the window of fingerprints that
 * keeps it from repeating what was rendered live, and the unread counter.
 */
module Session {
  import opened Common
  import opened Text

  const PAGE_LIMIT := 100
  const MAX_PAGES := 10
  const WINDOW := 200

  datatype SenderType = Customer | Agent | System

  /** A catch-up page's entry; a field is `None` when it is absent or not a string. */
  datatype Dto = NotAnObject | Dto(id: Option<string>, sender: Option<string>, content: Option<string>)

  datatype Parsed = Parsed(numericId: int, sender: string, content: string)

  datatype PageResult = Failed | Page(messages: seq<Dto>, hasMore: bool)

  /** What the session did, in order. */
  datatype Note =
    | Live(sender: string, content: string)
    | Served(id: int, sender: string, content: string)
    | Suppressed(id: int, sender: string, content: string)
    | UnreadChanged(count: nat)
    | BecameVisible
    | BecameHidden

  /** A request for a page on its way: the cursor it went out with and the round of its run. */
  datatype Request = Request(after: Option<int>, round: nat)

  datatype State = State(
    cursor: Option<int>,
    fingerprints: seq<string>,
    inFlight: bool,
    queued: bool,
    outstanding: seq<Request>,
    runs: nat,
    asked: nat,
    visible: bool,
    unread: nat,
    log: seq<Note>)

  datatype Event =
    | Incoming(senderType: SenderType, isAi: bool, content: string)
    | MarkVisible
    | MarkHidden
    | Connected
    | PageArrives(k: nat, result: PageResult)

  const START := State(None, [], false, false, [], 0, 0, false, 0, [])

  // ---- one step -------------------------------------------------------------------------------

  /** The server's word for a sender. */
  function SenderWord(senderType: SenderType, isAi: bool): string {
    match senderType
    case Customer => "customer"
    case Agent => "agent"
    case System => if isAi then "ai" else "system"
  }

  function SenderTypeOf(word: string): SenderType {
    if word == "ai" then System
    else if word == "agent" then Agent
    else if word == "system" then System
    else Customer
  }

  function Key(sender: string, content: string): string {
    sender + "|" + content
  }

  predicate CountsAsUnread(sender: string) {
    sender == "agent" || sender == "ai"
  }

  function Evict(window: seq<string>): seq<string> {
    if |window| > WINDOW then Evict(window[1..]) else window
  }

  function Track(window: seq<string>, key: string): seq<string> {
    Evict(if key in window then window else window + [key])
  }

  function Record(s: State, n: Note): State {
    s.(log := s.log + [n])
  }

  function SetUnread(s: State, count: nat): State {
    if count == s.unread then s else Record(s.(unread := count), UnreadChanged(count))
  }

  function BumpIfHidden(s: State, sender: string): State {
    if CountsAsUnread(sender) && !s.visible then SetUnread(s, s.unread + 1) else s
  }

  function OnIncoming(s: State, senderType: SenderType, isAi: bool, content: string): State {
    var sender := SenderWord(senderType, isAi);
    var t := s.(fingerprints := Track(s.fingerprints, Key(sender, content)));
    Record(BumpIfHidden(t, sender), Live(sender, content))
  }

  function ParseVisitorMessage(entry: Dto): Option<Parsed> {
    if entry.NotAnObject? || entry.id.None? then None
    else
      var rawId := Trim(entry.id.value, IsJsSpace);
      var n := ParseInt(rawId);
      if rawId == "" || n.None? || !IsSafeInteger(n.value) then None
      else if entry.content.None? || entry.sender.None? then None
      else Some(Parsed(n.value, entry.sender.value, entry.content.value))
  }

  function Advance(cursor: Option<int>, id: int): Option<int> {
    if cursor.None? || id > cursor.value then Some(id) else cursor
  }

  function Take(s: State, p: Parsed): State {
    var t := s.(cursor := Advance(s.cursor, p.numericId));
    if Key(p.sender, p.content) in s.fingerprints
    then Record(t, Suppressed(p.numericId, p.sender, p.content))
    else Record(BumpIfHidden(t, p.sender), Served(p.numericId, p.sender, p.content))
  }

  function TakeEntry(s: State, entry: Dto): State {
    var p := ParseVisitorMessage(entry);
    if p.None? then s else Take(s, p.value)
  }

  function TakeAll(s: State, entries: seq<Dto>): State
    decreases |entries|
  {
    if entries == [] then s else TakeAll(TakeEntry(s, entries[0]), entries[1..])
  }

  /** One more request goes out, with the cursor of the moment. */
  function Ask(s: State, round: nat): State {
    s.(outstanding := s.outstanding + [Request(s.cursor, round)], asked := s.asked + 1)
  }

  /** A call of `reconcileMissedMessages` up to its first request. */
  function Reconcile(s: State): State {
    if s.inFlight then s.(queued := true) else Ask(s.(inFlight := true, runs := s.runs + 1), 1)
  }

  /** The end of a run: a queued call starts at once. */
  function Finish(s: State): State {
    var t := s.(inFlight := false);
    if s.queued then Reconcile(t.(queued := false)) else t
  }

  function Answered(s: State, k: nat): State
    requires k < |s.outstanding|
  {
    s.(outstanding := s.outstanding[..k] + s.outstanding[k + 1..])
  }

  /** The rest of the run whose request `k` was answered, up to its next request. */
  function OnPage(s: State, k: nat, result: PageResult): State
    requires k < |s.outstanding|
  {
    match result
    case Failed => Finish(Answered(s, k))
    case Page(messages, hasMore) =>
      var t, round := TakeAll(Answered(s, k), messages), s.outstanding[k].round;
      if hasMore && round < MAX_PAGES then Ask(t, round + 1) else Finish(t)
  }

  function Step(s: State, e: Event): State {
    match e
    case Incoming(senderType, isAi, content) => OnIncoming(s, senderType, isAi, content)
    case MarkVisible => SetUnread(Record(s.(visible := true), BecameVisible), 0)
    case MarkHidden => Record(s.(visible := false), BecameHidden)
    case Connected => Reconcile(s)
    case PageArrives(k, result) => if k < |s.outstanding| then OnPage(s, k, result) else s
  }

  function StateAfter(h: seq<Event>): State {
    if h == [] then START else Step(StateAfter(Init(h)), Last(h))
  }

  lemma StepSnoc(h: seq<Event>, e: Event)
    ensures StateAfter(h + [e]) == Step(StateAfter(h), e)
  {
    assert Init(h + [e]) == h;
  }

  /** Processing a page touches the cursor, the unread counter and the log, nothing else. */
  lemma {:induction false} TakeAllFrame(s: State, entries: seq<Dto>)
    ensures var t := TakeAll(s, entries);
            t == s.(cursor := t.cursor, unread := t.unread, log := t.log)
    decreases |entries|
  {
    if entries != [] {
      TakeAllFrame(TakeEntry(s, entries[0]), entries[1..]);
    }
  }

  /** Ending a run or asking for the next page leaves the cursor and the log as the page left them. */
  lemma OnPageLog(s: State, k: nat, messages: seq<Dto>, hasMore: bool)
    requires k < |s.outstanding|
    ensures var t, u := OnPage(s, k, Page(messages, hasMore)), TakeAll(s, messages);
            t.log == u.log && t.cursor == u.cursor && t.fingerprints == s.fingerprints
  {
    TakeAllFrame(Answered(s, k), messages);
    TakeAllIgnoresRequests(s, s.outstanding[..k] + s.outstanding[k + 1..], messages);
  }

  lemma TakeIgnoresRequests(s: State, requests: seq<Request>, p: Parsed)
    ensures Take(s.(outstanding := requests), p) == Take(s, p).(outstanding := requests)
  {
  }

  lemma TakeEntryIgnoresRequests(s: State, requests: seq<Request>, entry: Dto)
    ensures TakeEntry(s.(outstanding := requests), entry) == TakeEntry(s, entry).(outstanding := requests)
  {
    var p := ParseVisitorMessage(entry);
    if p.Some? {
      TakeIgnoresRequests(s, requests, p.value);
    }
  }

  /** What a page does does not depend on the requests on their way. */
  lemma {:induction false} TakeAllIgnoresRequests(s: State, requests: seq<Request>, entries: seq<Dto>)
    ensures TakeAll(s.(outstanding := requests), entries) == TakeAll(s, entries).(outstanding := requests)
    decreases |entries|
  {
    if entries != [] {
      TakeEntryIgnoresRequests(s, requests, entries[0]);
      TakeAllIgnoresRequests(TakeEntry(s, entries[0]), requests, entries[1..]);
    }
  }

  /** The parser accepts what the server sends: a decimal id with a sender and a content. */
  lemma ServerRowsParse(n: nat, sender: string, content: string)
    requires n <= 0x1F_FFFF_FFFF_FFFF
    ensures ParseVisitorMessage(Dto(Some(Decimal(n)), Some(sender), Some(content))) ==
            Some(Parsed(n, sender, content))
  {
    ParseIntOfDecimal(n);
    DecimalRoundTrip(n);
    DigitsNeedNoTrim(Decimal(n));
  }

  /** An id is read as a number that the text begins with, signed or not, outer space aside; a larger one is not. */
  lemma LooseIdsAreRead(before: string, sign: string, n: nat, rest: string, after: string, sender: string,
                        content: string)
    requires forall c :: c in before || c in after ==> IsJsSpace(c)
    requires sign in ["", "+", "-"] && (rest == "" || (!IsDigit(rest[0]) && !IsJsSpace(Last(rest))))
    ensures ParseVisitorMessage(Dto(Some(before + (sign + Decimal(n) + rest) + after), Some(sender), Some(content)))
            == if n <= 0x1F_FFFF_FFFF_FFFF then Some(Parsed(Signed(sign, n), sender, content)) else None
  {
    hide Decimal, ParseInt, Trim;
    SolidEnds(sign, n, rest);
    OuterSpaceGoes(before, sign + Decimal(n) + rest, after, IsJsSpace);
    ParseIntOfPrefix(sign, n, rest);
  }

  lemma SolidEnds(sign: string, n: nat, rest: string)
    requires sign in ["", "+", "-"] && (rest == "" || !IsJsSpace(Last(rest)))
    ensures var id := sign + Decimal(n) + rest;
            id != "" && !IsJsSpace(id[0]) && !IsJsSpace(Last(id))
  {
    hide Decimal;
    DecimalRoundTrip(n);
    var id := sign + Decimal(n) + rest;
    assert Decimal(n)[0] in Decimal(n) && Last(Decimal(n)) in Decimal(n);
    assert id[0] == if sign == "" then Decimal(n)[0] else sign[0];
    assert Last(id) == if rest == "" then Last(Decimal(n)) else Last(rest);
  }

  /** What is no object, or lacks an id, a sender or a content, or has an id without a number in front, is skipped. */
  lemma UnreadableIsSkipped(entry: Dto)
    requires || entry.NotAnObject?
             || entry.id.None? || entry.sender.None? || entry.content.None?
             || forall c :: c in entry.id.value ==> !IsDigit(c)
    ensures ParseVisitorMessage(entry) == None
  {
    if !entry.NotAnObject? && entry.id.Some? && forall c :: c in entry.id.value ==> !IsDigit(c) {
      TrimmedIsPart(entry.id.value, IsJsSpace);
    }
  }

  /** The message shown for a server entry carries the type a live frame of that sender would. */
  lemma SendersAgree(senderType: SenderType, isAi: bool)
    ensures var word := SenderWord(senderType, isAi);
            SenderTypeOf(word) == senderType && SenderWord(SenderTypeOf(word), word == "ai") == word
  {
  }

  // ---- the dedupe window ------------------------------------------------------------------------

  /** The keys of the messages rendered live, in order. */
  function LiveKeys(h: seq<Event>): seq<string> {
    if h == [] then []
    else
      var e := Last(h);
      LiveKeys(Init(h)) +
      if e.Incoming? then [Key(SenderWord(e.senderType, e.isAi), e.content)] else []
  }

  function Youngest(keys: seq<string>): seq<string> {
    if |keys| <= 200 then keys else keys[|keys| - 200..]
  }

  /** A key enters the window unless it is in it already. */
  function Admit(admitted: seq<string>, key: string): seq<string> {
    if key in Youngest(admitted) then admitted else admitted + [key]
  }

  /** The keys that entered the window, in order. */
  function Admitted(keys: seq<string>): seq<string> {
    if keys == [] then [] else Admit(Admitted(Init(keys)), Last(keys))
  }

  ghost predicate Distinct(keys: seq<string>) {
    forall i, j :: 0 <= i < j < |keys| ==> keys[i] != keys[j]
  }

  lemma YoungestSnoc(a: seq<string>, key: string)
    ensures Youngest(a + [key]) == Evict(Youngest(a) + [key])
  {
    var grown := Youngest(a) + [key];
    if |grown| > WINDOW {
      assert Evict(grown) == Evict(grown[1..]) == grown[1..];
    }
  }

  lemma AdmitTracks(a: seq<string>, key: string)
    requires Distinct(Youngest(a))
    ensures Youngest(Admit(a, key)) == Track(Youngest(a), key)
    ensures Distinct(Youngest(Admit(a, key)))
  {
    if key !in Youngest(a) {
      YoungestSnoc(a, key);
      var grown := Youngest(a) + [key];
      assert Distinct(grown);
      assert Evict(grown) == grown || Evict(grown) == grown[1..];
    }
  }

  /** Only a message rendered live touches the window. */
  lemma StepWindow(s: State, e: Event)
    ensures Step(s, e).fingerprints ==
            if e.Incoming? then Track(s.fingerprints, Key(SenderWord(e.senderType, e.isAi), e.content))
            else s.fingerprints
  {
    if e.PageArrives? && e.k < |s.outstanding| && e.result.Page? {
      TakeAllFrame(Answered(s, e.k), e.result.messages);
    }
  }

  /**
   * In every run the window is a first-in first-out queue: exactly the last 200 admitted keys of
   * the messages rendered live, without repeats. Nothing else enters or leaves it.
   */
  lemma {:induction false} WindowIsFifo(h: seq<Event>)
    ensures StateAfter(h).fingerprints == Youngest(Admitted(LiveKeys(h)))
    ensures Distinct(StateAfter(h).fingerprints)
    ensures |StateAfter(h).fingerprints| <= 200
  {
    if h != [] {
      var g, e := Init(h), Last(h);
      var keys := LiveKeys(g);
      WindowIsFifo(g);
      StepWindow(StateAfter(g), e);
      if e.Incoming? {
        var key := Key(SenderWord(e.senderType, e.isAi), e.content);
        AdmitTracks(Admitted(keys), key);
        assert Init(keys + [key]) == keys;
      } else {
        assert keys + [] == keys;
      }
    }
  }

  /** Rendering a key again while it is in the window does not make it younger. */
  lemma ReinsertionKeepsAge(a: seq<string>, next: string)
    requires |a| >= 200 && Distinct(Youngest(a)) && next !in Youngest(a)
    ensures var oldest := Youngest(a)[0];
            && oldest in Youngest(Admit(a, oldest))
            && oldest !in Youngest(Admit(Admit(a, oldest), next))
  {
    var y := Youngest(a);
    assert Admit(a, y[0]) == a;
    assert Youngest(a + [next]) == y[1..] + [next];
    assert forall i :: 0 < i < |y| ==> y[i] != y[0];
  }

  // ---- the unread counter -----------------------------------------------------------------------

  /** The agent and AI messages of a log. */
  function Countable(log: seq<Note>): nat {
    if log == [] then 0
    else
      var n := Last(log);
      Countable(Init(log)) +
      if (n.Live? || n.Served?) && CountsAsUnread(n.sender) then 1 else 0
  }

  /** The part of the log that follows its last `BecameVisible`; all of it if there is none. */
  function SinceVisible(log: seq<Note>): seq<Note> {
    if log == [] || Last(log).BecameVisible? then [] else SinceVisible(Init(log)) + [Last(log)]
  }

  predicate EverVisible(log: seq<Note>) {
    BecameVisible in log
  }

  /** The part of a log that follows its first `BecameHidden`; nothing if there is none. */
  function SinceHidden(log: seq<Note>): seq<Note> {
    if log == [] then []
    else if log[0].BecameHidden? then log[1..]
    else SinceHidden(log[1..])
  }

  /** Hidden at the end of the log: never visible, or hidden again since. */
  predicate HiddenNow(log: seq<Note>) {
    !EverVisible(log) || BecameHidden in SinceVisible(log)
  }

  /** The agent and AI messages shown while hidden since the session was last visible. */
  function UnreadOf(log: seq<Note>): nat {
    if !HiddenNow(log) then 0
    else if !EverVisible(log) then Countable(log)
    else Countable(SinceHidden(SinceVisible(log)))
  }

  /** What the listeners of `unread-change` were last told. */
  function LastTold(log: seq<Note>): nat {
    if log == [] then 0
    else if Last(log).UnreadChanged? then Last(log).count
    else LastTold(Init(log))
  }

  ghost predicate UnreadIsExact(s: State) {
    && s.unread == UnreadOf(s.log)
    && s.unread == LastTold(s.log)
    && s.visible == !HiddenNow(s.log)
  }

  lemma {:induction false} SinceHiddenSnoc(log: seq<Note>, n: Note)
    ensures SinceHidden(log + [n]) ==
            if BecameHidden in log then SinceHidden(log) + [n] else []
  {
    if log == [] {
      assert (log + [n])[1..] == [];
    } else {
      assert (log + [n])[1..] == log[1..] + [n];
      SinceHiddenSnoc(log[1..], n);
      assert BecameHidden in log <==> log[0].BecameHidden? || BecameHidden in log[1..];
    }
  }

  lemma UnreadSnoc(log: seq<Note>, n: Note)
    ensures HiddenNow(log + [n]) == (n.BecameHidden? || (HiddenNow(log) && !n.BecameVisible?))
    ensures UnreadOf(log + [n]) ==
            if n.BecameVisible? || !HiddenNow(log) then 0
            else UnreadOf(log) + (Countable([n]))
    ensures LastTold(log + [n]) == if n.UnreadChanged? then n.count else LastTold(log)
  {
    var m := log + [n];
    assert Init(m) == log && Init([n]) == [];
    assert EverVisible(m) <==> EverVisible(log) || n.BecameVisible?;
    if !n.BecameVisible? {
      var since := SinceVisible(log);
      assert SinceVisible(m) == since + [n];
      SinceHiddenSnoc(since, n);
      assert BecameHidden in since + [n] <==> BecameHidden in since || n.BecameHidden?;
      if BecameHidden in since {
        assert Init(SinceHidden(since) + [n]) == SinceHidden(since);
      }
    }
  }

  lemma RecordKeepsUnread(s: State, n: Note)
    requires UnreadIsExact(s)
    requires n.Suppressed? || ((n.Served? || n.Live?) && (s.visible || !CountsAsUnread(n.sender)))
    ensures UnreadIsExact(Record(s, n))
  {
    UnreadSnoc(s.log, n);
    assert Init([n]) == [];
  }

  lemma BumpKeepsUnread(s: State, n: Note)
    requires UnreadIsExact(s) && !s.visible
    requires (n.Live? || n.Served?) && CountsAsUnread(n.sender)
    ensures UnreadIsExact(Record(SetUnread(s, s.unread + 1), n))
  {
    var told := UnreadChanged(s.unread + 1);
    UnreadSnoc(s.log, told);
    UnreadSnoc(s.log + [told], n);
    assert Init([n]) == [] && Init([told]) == [];
  }

  lemma TakeKeepsUnread(s: State, p: Parsed)
    requires UnreadIsExact(s)
    ensures UnreadIsExact(Take(s, p))
  {
    var t := s.(cursor := Advance(s.cursor, p.numericId));
    if Key(p.sender, p.content) in s.fingerprints {
      RecordKeepsUnread(t, Suppressed(p.numericId, p.sender, p.content));
    } else {
      var n := Served(p.numericId, p.sender, p.content);
      if CountsAsUnread(p.sender) && !s.visible {
        BumpKeepsUnread(t, n);
      } else {
        RecordKeepsUnread(t, n);
      }
    }
  }

  lemma {:induction false} TakeAllKeepsUnread(s: State, entries: seq<Dto>)
    requires UnreadIsExact(s)
    ensures UnreadIsExact(TakeAll(s, entries))
    decreases |entries|
  {
    if entries != [] {
      var p := ParseVisitorMessage(entries[0]);
      if p.Some? {
        TakeKeepsUnread(s, p.value);
      }
      TakeAllKeepsUnread(TakeEntry(s, entries[0]), entries[1..]);
    }
  }

  lemma ShowingKeepsUnread(s: State)
    requires UnreadIsExact(s)
    ensures UnreadIsExact(Step(s, MarkVisible))
  {
    UnreadSnoc(s.log, BecameVisible);
    UnreadSnoc(s.log + [BecameVisible], UnreadChanged(0));
  }

  lemma HidingKeepsUnread(s: State)
    requires UnreadIsExact(s)
    ensures UnreadIsExact(Step(s, MarkHidden))
  {
    UnreadSnoc(s.log, BecameHidden);
    assert Init([BecameHidden]) == [];
  }

  lemma IncomingKeepsUnread(s: State, senderType: SenderType, isAi: bool, content: string)
    requires UnreadIsExact(s)
    ensures UnreadIsExact(OnIncoming(s, senderType, isAi, content))
  {
    var sender := SenderWord(senderType, isAi);
    var t := s.(fingerprints := Track(s.fingerprints, Key(sender, content)));
    if CountsAsUnread(sender) && !s.visible {
      BumpKeepsUnread(t, Live(sender, content));
    } else {
      RecordKeepsUnread(t, Live(sender, content));
    }
  }

  /**
   * In every run the counter is the number of agent and AI messages shown - live or by catch-up -
   * while hidden since the session was last visible, zero while it is visible, and always what the
   * listeners of `unread-change` were last told.
   */
  lemma {:induction false} UnreadIsAlwaysExact(h: seq<Event>)
    ensures UnreadIsExact(StateAfter(h))
  {
    if h != [] {
      var s, e := StateAfter(Init(h)), Last(h);
      UnreadIsAlwaysExact(Init(h));
      match e
      case Incoming(senderType, isAi, content) => IncomingKeepsUnread(s, senderType, isAi, content);
      case PageArrives(k, Page(messages, _)) =>
        if k < |s.outstanding| {
          TakeAllKeepsUnread(Answered(s, k), messages);
        }
      case PageArrives(k, Failed) =>
      case Connected =>
      case MarkVisible => ShowingKeepsUnread(s);
      case MarkHidden => HidingKeepsUnread(s);
    }
  }

  // ---- nothing is suppressed that was not shown ---------------------------------------------------

  ghost predicate ShownLive(log: seq<Note>, key: string) {
    exists n :: n in log && n.Live? && Key(n.sender, n.content) == key
  }

  /** What the window holds and what catch-up left out was rendered live before. */
  ghost predicate Justified(s: State) {
    && (forall key :: key in s.fingerprints ==> ShownLive(s.log, key))
    && (forall n :: n in s.log && n.Suppressed? ==> ShownLive(s.log, Key(n.sender, n.content)))
  }

  lemma ShownLiveGrows(log: seq<Note>, more: seq<Note>, key: string)
    requires ShownLive(log, key)
    ensures ShownLive(log + more, key)
  {
    var n :| n in log && n.Live? && Key(n.sender, n.content) == key;
    assert n in log + more;
  }

  lemma RecordJustified(s: State, n: Note)
    requires Justified(s)
    requires n.Suppressed? ==> Key(n.sender, n.content) in s.fingerprints
    ensures Justified(Record(s, n))
  {
    var t := Record(s, n);
    forall key | ShownLive(s.log, key)
      ensures ShownLive(t.log, key)
    {
      ShownLiveGrows(s.log, [n], key);
    }
  }

  lemma BumpJustified(s: State, sender: string)
    requires Justified(s)
    ensures Justified(BumpIfHidden(s, sender))
  {
    RecordJustified(s.(unread := s.unread + 1), UnreadChanged(s.unread + 1));
  }

  lemma TakeJustified(s: State, p: Parsed)
    requires Justified(s)
    ensures Justified(Take(s, p))
  {
    var t := s.(cursor := Advance(s.cursor, p.numericId));
    if Key(p.sender, p.content) in s.fingerprints {
      RecordJustified(t, Suppressed(p.numericId, p.sender, p.content));
    } else {
      BumpJustified(t, p.sender);
      RecordJustified(BumpIfHidden(t, p.sender), Served(p.numericId, p.sender, p.content));
    }
  }

  lemma {:induction false} TakeAllJustified(s: State, entries: seq<Dto>)
    requires Justified(s)
    ensures Justified(TakeAll(s, entries))
    decreases |entries|
  {
    if entries != [] {
      var p := ParseVisitorMessage(entries[0]);
      if p.Some? {
        TakeJustified(s, p.value);
      }
      TakeAllJustified(TakeEntry(s, entries[0]), entries[1..]);
    }
  }

  lemma {:induction false} EvictKeepsMembers(window: seq<string>)
    ensures forall key :: key in Evict(window) ==> key in window
  {
    if |window| > WINDOW {
      EvictKeepsMembers(window[1..]);
    }
  }

  lemma TrackJustified(s: State, key: string)
    requires Justified(s) && ShownLive(s.log, key)
    ensures Justified(s.(fingerprints := Track(s.fingerprints, key)))
  {
    EvictKeepsMembers(if key in s.fingerprints then s.fingerprints else s.fingerprints + [key]);
  }

  lemma IncomingJustified(s: State, senderType: SenderType, isAi: bool, content: string)
    requires Justified(s)
    ensures Justified(OnIncoming(s, senderType, isAi, content))
  {
    var sender := SenderWord(senderType, isAi);
    var u, live := BumpIfHidden(s, sender), Live(sender, content);
    BumpJustified(s, sender);
    RecordJustified(u, live);
    assert live in Record(u, live).log;
    TrackJustified(Record(u, live), Key(sender, content));
  }

  /** In every run the key of a message left out by catch-up is that of a message rendered live. */
  lemma {:induction false} SuppressedKeyWasShown(h: seq<Event>)
    ensures Justified(StateAfter(h))
  {
    if h != [] {
      var s, e := StateAfter(Init(h)), Last(h);
      SuppressedKeyWasShown(Init(h));
      match e
      case Incoming(senderType, isAi, content) => IncomingJustified(s, senderType, isAi, content);
      case MarkVisible =>
        RecordJustified(s.(visible := true), BecameVisible);
        RecordJustified(Record(s.(visible := true, unread := 0), BecameVisible), UnreadChanged(0));
      case MarkHidden => RecordJustified(s.(visible := false), BecameHidden);
      case Connected =>
      case PageArrives(k, Page(messages, _)) =>
        if k < |s.outstanding| {
          TakeAllJustified(Answered(s, k), messages);
        }
      case PageArrives(k, Failed) =>
    }
  }

  lemma {:induction false} SameSender(a: string, b: string, c: string, d: string)
    requires '|' !in a && '|' !in c && Key(a, b) == Key(c, d)
    ensures a == c && b == d
  {
    var k := Key(a, b);
    assert k[|a|] == '|' && k[|c|] == '|';
    assert forall i :: 0 <= i < |a| ==> k[i] != '|';
    assert forall i :: 0 <= i < |c| ==> k[i] != '|';
    assert a == k[..|a|] && c == k[..|c|] && b == k[|a| + 1..] && d == k[|c| + 1..];
  }

  ghost predicate LiveSendersAreWords(log: seq<Note>) {
    forall n :: n in log && n.Live? ==> '|' !in n.sender
  }

  lemma WordsHaveNoBar(senderType: SenderType, isAi: bool)
    ensures '|' !in SenderWord(senderType, isAi)
  {
  }

  lemma {:induction false} TakeAllKeepsWords(s: State, entries: seq<Dto>)
    requires LiveSendersAreWords(s.log)
    ensures LiveSendersAreWords(TakeAll(s, entries).log)
    decreases |entries|
  {
    if entries != [] {
      TakeAllKeepsWords(TakeEntry(s, entries[0]), entries[1..]);
    }
  }

  lemma {:induction false} SendersStayWords(h: seq<Event>)
    ensures LiveSendersAreWords(StateAfter(h).log)
  {
    if h != [] {
      var s, e := StateAfter(Init(h)), Last(h);
      SendersStayWords(Init(h));
      if e.Incoming? {
        WordsHaveNoBar(e.senderType, e.isAi);
      } else if e.PageArrives? && e.k < |s.outstanding| && e.result.Page? {
        TakeAllKeepsWords(Answered(s, e.k), e.result.messages);
      }
    }
  }

  /**
   * In every run a message left out by catch-up whose sender has no bar in it, as the server's words
   * have none, was rendered live with that sender and that content.
   */
  lemma SuppressedWasShown(h: seq<Event>, n: Note)
    requires n in StateAfter(h).log && n.Suppressed? && '|' !in n.sender
    ensures Live(n.sender, n.content) in StateAfter(h).log
  {
    SuppressedKeyWasShown(h);
    SendersStayWords(h);
    var log := StateAfter(h).log;
    assert ShownLive(log, Key(n.sender, n.content));
    var m :| m in log && m.Live? && Key(m.sender, m.content) == Key(n.sender, n.content);
    SameSender(m.sender, m.content, n.sender, n.content);
  }

  /** An entry is left out after a live message with its key, whatever the two say. */
  lemma CoincidingKeyHides(d: Dto, p: Parsed, content: string)
    requires ParseVisitorMessage(d) == Some(p) && Key("agent", content) == Key(p.sender, p.content)
    ensures StateAfter([MarkVisible, Incoming(Agent, false, content), Connected, PageArrives(0, Page([d], false))]).log
            == [BecameVisible, Live("agent", content), Suppressed(p.numericId, p.sender, p.content)]
  {
    var s := AgentSpeaks(content);
    var h, e := [MarkVisible, Incoming(Agent, false, content), Connected], PageArrives(0, Page([d], false));
    StepSnoc(h, e);
    assert h + [e] == [MarkVisible, Incoming(Agent, false, content), Connected, e];
    assert [d][1..] == [];
    assert TakeAll(Answered(s, 0), [d]) == Take(Answered(s, 0), p);
  }

  lemma StepsOfAgent(content: string)
    ensures var s := Step(Step(Step(START, MarkVisible), Incoming(Agent, false, content)), Connected);
            && s.log == [BecameVisible, Live("agent", content)] && s.fingerprints == [Key("agent", content)]
            && s.outstanding == [Request(None, 1)] && s.visible && s.cursor == None && !s.queued
  {
  }

  /** A message seen live, and a catch-up run begun. */
  lemma AgentSpeaks(content: string) returns (s: State)
    ensures s == StateAfter([MarkVisible, Incoming(Agent, false, content), Connected])
    ensures s.log == [BecameVisible, Live("agent", content)] && s.fingerprints == [Key("agent", content)]
    ensures s.outstanding == [Request(None, 1)] && s.visible && s.cursor == None && !s.queued
  {
    hide Step;
    var e := Incoming(Agent, false, content);
    StepSnoc([], MarkVisible);
    StepSnoc([] + [MarkVisible], e);
    StepSnoc([] + [MarkVisible] + [e], Connected);
    assert [] + [MarkVisible] + [e] + [Connected] == [MarkVisible, e, Connected];
    StepsOfAgent(content);
    s := StateAfter([MarkVisible, e, Connected]);
  }

  /** With a bar in the sender a message is left out that was never rendered: keys can coincide. */
  lemma KeysCanCoincide()
    ensures var d := Dto(Some("1"), Some("agent|a"), Some("b"));
            StateAfter([MarkVisible, Incoming(Agent, false, "a|b"), Connected, PageArrives(0, Page([d], false))]).log
            == [BecameVisible, Live("agent", "a|b"), Suppressed(1, "agent|a", "b")]
  {
    assert Decimal(1) == "1";
    ServerRowsParse(1, "agent|a", "b");
    assert Key("agent", "a|b") == Key("agent|a", "b");
    CoincidingKeyHides(Dto(Some("1"), Some("agent|a"), Some("b")), Parsed(1, "agent|a", "b"), "a|b");
  }

  // ---- runs and cursor over any server ------------------------------------------------------------

  function Connects(h: seq<Event>): nat {
    if h == [] then 0 else Connects(Init(h)) + if Last(h).Connected? then 1 else 0
  }

  /** What is on its way: one request of the run in flight, with the cursor as it still is. */
  ghost predicate OneRequest(s: State) {
    if s.inFlight
    then |s.outstanding| == 1 && s.outstanding[0].after == s.cursor && 1 <= s.outstanding[0].round <= MAX_PAGES
    else s.outstanding == []
  }

  lemma StepKeepsOneRequest(s: State, e: Event)
    requires OneRequest(s)
    ensures OneRequest(Step(s, e))
  {
    if e.PageArrives? && e.k < |s.outstanding| && e.result.Page? {
      TakeAllFrame(Answered(s, e.k), e.result.messages);
    }
  }

  ghost predicate RunsInOrder(s: State, connects: nat) {
    && OneRequest(s)
    && (s.inFlight ==> s.runs >= 1)
    && (s.queued ==> s.inFlight)
    && s.asked + (if s.inFlight then MAX_PAGES - s.outstanding[0].round else 0) <= MAX_PAGES * s.runs
    && s.runs + (if s.queued then 1 else 0) <= connects
  }

  lemma StepKeepsRunsInOrder(s: State, connects: nat, e: Event)
    requires RunsInOrder(s, connects)
    ensures RunsInOrder(Step(s, e), if e.Connected? then connects + 1 else connects)
  {
    StepKeepsOneRequest(s, e);
    if e.PageArrives? && e.k < |s.outstanding| && e.result.Page? {
      TakeAllFrame(Answered(s, e.k), e.result.messages);
    }
  }

  /**
   * However connects and pages interleave: at most one request is on its way, and the cursor has not
   * moved since it went out; one more run at most is queued behind the one in flight, a run asks for
   * at most ten pages, and every run answers for a connect of its own.
   */
  lemma {:induction false} RunsAreBounded(h: seq<Event>)
    ensures RunsInOrder(StateAfter(h), Connects(h))
  {
    if h != [] {
      RunsAreBounded(Init(h));
      StepKeepsRunsInOrder(StateAfter(Init(h)), Connects(Init(h)), Last(h));
    }
  }

  lemma PageGoesOn(s: State, connects: nat, messages: seq<Dto>)
    requires RunsInOrder(s, connects) && s.outstanding != [] && s.outstanding[0].round < 10
    ensures var t := Step(s, PageArrives(0, Page(messages, true)));
            && t.outstanding == [Request(t.cursor, s.outstanding[0].round + 1)]
            && t.inFlight && t.queued == s.queued && t.runs == s.runs && t.asked == s.asked + 1
  {
    TakeAllFrame(Answered(s, 0), messages);
  }

  /**
   * A run goes on: when its request of round r is answered by a page with more to come and r is below
   * ten, one request of round r + 1 is on its way afterwards, with the cursor the page left.
   */
  lemma RunGoesOn(h: seq<Event>, messages: seq<Dto>)
    requires StateAfter(h).outstanding != [] && StateAfter(h).outstanding[0].round < 10
    ensures var s, t := StateAfter(h), StateAfter(h + [PageArrives(0, Page(messages, true))]);
            && t.outstanding == [Request(t.cursor, s.outstanding[0].round + 1)]
            && t.inFlight && t.queued == s.queued && t.runs == s.runs && t.asked == s.asked + 1
  {
    hide Step, RunsInOrder;
    RunsAreBounded(h);
    StepSnoc(h, PageArrives(0, Page(messages, true)));
    PageGoesOn(StateAfter(h), Connects(h), messages);
  }

  /** The answer is the last of its run: a failure, a page with nothing after it, or the tenth page. */
  predicate EndsRun(r: Request, result: PageResult) {
    result.Failed? || !result.hasMore || r.round >= 10
  }

  /** A run ends with its last answer; a connect that came meanwhile then has a run of its own at once. */
  lemma RunEnds(h: seq<Event>, result: PageResult)
    requires StateAfter(h).outstanding != [] && EndsRun(StateAfter(h).outstanding[0], result)
    ensures var s, t := StateAfter(h), StateAfter(h + [PageArrives(0, result)]);
            && !t.queued && t.inFlight == s.queued
            && t.outstanding == (if s.queued then [Request(t.cursor, 1)] else [])
            && t.runs == s.runs + (if s.queued then 1 else 0) && t.asked == s.asked + (if s.queued then 1 else 0)
            && (result.Failed? ==> t.cursor == s.cursor && t.log == s.log)
  {
    RunsAreBounded(h);
    StepSnoc(h, PageArrives(0, result));
    if result.Page? {
      TakeAllFrame(Answered(StateAfter(h), 0), result.messages);
    }
  }

  /** A connect asks at once with the cursor, unless a run is in flight: then it is remembered for its end. */
  lemma ConnectIsServed(h: seq<Event>)
    ensures var s, t := StateAfter(h), StateAfter(h + [Connected]);
            && t.inFlight && t.cursor == s.cursor && t.log == s.log
            && (if s.inFlight then t == s.(queued := true)
                else t.outstanding == [Request(s.cursor, 1)] && !t.queued && t.runs == s.runs + 1 &&
                     t.asked == s.asked + 1)
  {
    RunsAreBounded(h);
    StepSnoc(h, Connected);
  }

  predicate AtMost(a: Option<int>, b: Option<int>) {
    a.None? || (b.Some? && a.value <= b.value)
  }

  lemma {:induction false} TakeAllAdvances(s: State, entries: seq<Dto>)
    ensures AtMost(s.cursor, TakeAll(s, entries).cursor)
    decreases |entries|
  {
    if entries != [] {
      TakeAllAdvances(TakeEntry(s, entries[0]), entries[1..]);
    }
  }

  /** Whatever the pages hold, the cursor never moves back. */
  lemma {:induction false} CursorNeverDecreases(h: seq<Event>, g: seq<Event>)
    ensures AtMost(StateAfter(h).cursor, StateAfter(h + g).cursor)
  {
    if g == [] {
      assert h + g == h;
    } else {
      var f, e := h + Init(g), Last(g);
      CursorNeverDecreases(h, Init(g));
      AppendInit(h, g);
      assert Init(f + [e]) == f;
      var s := StateAfter(f);
      if e.PageArrives? && e.k < |s.outstanding| && e.result.Page? {
        TakeAllAdvances(Answered(s, e.k), e.result.messages);
      }
    }
  }

  lemma IncomingIsShown(s: State, senderType: SenderType, isAi: bool, content: string, counts: bool)
    requires counts == (!s.visible && (senderType == Agent || (senderType == System && isAi)))
    ensures var t := OnIncoming(s, senderType, isAi, content);
            && t.unread == (if counts then s.unread + 1 else s.unread)
            && t.log == (if counts then s.log + [UnreadChanged(s.unread + 1)] else s.log)
                        + [Live(SenderWord(senderType, isAi), content)]
  {
  }

  /** Marking sets visibility and announces it; made visible, the counter is zero, and a change of it is announced. */
  lemma MarksDecide(h: seq<Event>)
    ensures var s := StateAfter(h);
            && StateAfter(h + [MarkHidden]) == s.(visible := false, log := s.log + [BecameHidden])
            && StateAfter(h + [MarkVisible])
               == s.(visible := true, unread := 0,
                     log := s.log + [BecameVisible] + if s.unread == 0 then [] else [UnreadChanged(0)])
  {
    StepSnoc(h, MarkHidden);
    StepSnoc(h, MarkVisible);
  }

  /**
   * Which live messages count: while hidden one from an agent or from the assistant raises the counter by
   * one and is announced; a visitor's, a system notice, and anything while visible do not.
   */
  lemma LiveMessageCounts(h: seq<Event>, senderType: SenderType, isAi: bool, content: string)
    ensures var s, t := StateAfter(h), StateAfter(h + [Incoming(senderType, isAi, content)]);
            var word := if senderType == Customer then "customer" else if senderType == Agent then "agent"
                        else if isAi then "ai" else "system";
            var counts := !s.visible && (senderType == Agent || (senderType == System && isAi));
            && t.unread == (if counts then s.unread + 1 else s.unread)
            && t.log == (if counts then s.log + [UnreadChanged(s.unread + 1)] else s.log)
                        + [Live(word, content)]
  {
    var s := StateAfter(h);
    StepSnoc(h, Incoming(senderType, isAi, content));
    IncomingIsShown(s, senderType, isAi, content,
                    !s.visible && (senderType == Agent || (senderType == System && isAi)));
  }

  // ---- what a page shows --------------------------------------------------------------------------

  /** The readable entries of a page, in order. */
  function Readables(entries: seq<Dto>): seq<Parsed> {
    if entries == [] then []
    else
      var p := ParseVisitorMessage(entries[0]);
      if p.Some? then [p.value] + Readables(entries[1..]) else Readables(entries[1..])
  }

  /** Those whose key is not in the window. */
  function Unseen(ps: seq<Parsed>, window: seq<string>): seq<Parsed> {
    if ps == [] then []
    else if Key(ps[0].sender, ps[0].content) in window then Unseen(ps[1..], window)
    else [ps[0]] + Unseen(ps[1..], window)
  }

  /** What catch-up showed. */
  function ServedOf(log: seq<Note>): seq<Parsed> {
    if log == [] then []
    else
      var n := Last(log);
      if n.Served? then ServedOf(Init(log)) + [Parsed(n.id, n.sender, n.content)] else ServedOf(Init(log))
  }

  lemma ServedSnoc(log: seq<Note>, n: Note)
    ensures ServedOf(log + [n]) ==
            if n.Served? then ServedOf(log) + [Parsed(n.id, n.sender, n.content)] else ServedOf(log)
  {
    assert Init(log + [n]) == log;
  }

  lemma BumpServesNothing(s: State, sender: string)
    ensures ServedOf(BumpIfHidden(s, sender).log) == ServedOf(s.log)
  {
    ServedSnoc(s.log, UnreadChanged(s.unread + 1));
  }

  lemma {:induction false} UnseenOne(p: Parsed, window: seq<string>)
    ensures Unseen([p], window) == if Key(p.sender, p.content) in window then [] else [p]
  {
    assert [p][1..] == [];
  }

  lemma {:induction false} TakeServes(s: State, p: Parsed)
    ensures ServedOf(Take(s, p).log) == ServedOf(s.log) + Unseen([p], s.fingerprints)
    ensures Take(s, p).fingerprints == s.fingerprints
  {
    var t := s.(cursor := Advance(s.cursor, p.numericId));
    UnseenOne(p, s.fingerprints);
    if Key(p.sender, p.content) in s.fingerprints {
      ServedSnoc(s.log, Suppressed(p.numericId, p.sender, p.content));
    } else {
      BumpServesNothing(t, p.sender);
      ServedSnoc(BumpIfHidden(t, p.sender).log, Served(p.numericId, p.sender, p.content));
    }
  }

  lemma UnseenHead(p: Parsed, ps: seq<Parsed>, window: seq<string>)
    ensures Unseen([p] + ps, window) == Unseen([p], window) + Unseen(ps, window)
  {
    assert ([p] + ps)[1..] == ps && [p][1..] == [];
  }

  /**
   * Whatever the server sends: a page shows exactly its readable entries whose key is not in the
   * window, in page order.
   */
  lemma {:induction false} PageServes(s: State, entries: seq<Dto>)
    ensures ServedOf(TakeAll(s, entries).log) ==
            ServedOf(s.log) + Unseen(Readables(entries), s.fingerprints)
    decreases |entries|
  {
    if entries != [] {
      var p, rest := ParseVisitorMessage(entries[0]), entries[1..];
      PageServes(TakeEntry(s, entries[0]), rest);
      if p.Some? {
        TakeServes(s, p.value);
        UnseenHead(p.value, Readables(rest), s.fingerprints);
      }
    }
  }

  /** What an event has to show: the unseen entries of a page that answers a request. */
  function ToShow(s: State, e: Event): seq<Parsed> {
    if e.PageArrives? && e.k < |s.outstanding| && e.result.Page?
    then Unseen(Readables(e.result.messages), s.fingerprints) else []
  }

  /** What the answered pages of a run had to show when they came. */
  function Shown(h: seq<Event>): seq<Parsed> {
    if h == [] then [] else Shown(Init(h)) + ToShow(StateAfter(Init(h)), Last(h))
  }

  lemma OtherStepsServeNothing(s: State, e: Event)
    requires !e.PageArrives?
    ensures ServedOf(Step(s, e).log) == ServedOf(s.log)
  {
    match e
    case Incoming(senderType, isAi, content) =>
      var sender := SenderWord(senderType, isAi);
      BumpServesNothing(s, sender);
      ServedSnoc(BumpIfHidden(s, sender).log, Live(sender, content));
    case MarkVisible =>
      ServedSnoc(s.log, BecameVisible);
      ServedSnoc(s.log + [BecameVisible], UnreadChanged(0));
    case MarkHidden => ServedSnoc(s.log, BecameHidden);
    case Connected =>
  }

  lemma {:induction false} StepServes(s: State, e: Event)
    ensures ServedOf(Step(s, e).log) == ServedOf(s.log) + ToShow(s, e)
  {
    if !e.PageArrives? {
      OtherStepsServeNothing(s, e);
    } else if e.k < |s.outstanding| && e.result.Page? {
      OnPageLog(s, e.k, e.result.messages, e.result.hasMore);
      PageServes(s, e.result.messages);
    }
  }

  /** In every run, against any server, catch-up shows exactly those entries, page after page. */
  lemma {:induction false} RunServes(h: seq<Event>)
    ensures ServedOf(StateAfter(h).log) == Shown(h)
  {
    if h != [] {
      RunServes(Init(h));
      StepServes(StateAfter(Init(h)), Last(h));
    }
  }

  function Times(ps: seq<Parsed>, id: int): nat {
    if ps == [] then 0 else Times(Init(ps), id) + if Last(ps).numericId == id then 1 else 0
  }

  lemma {:induction false} TimesOfConcat(a: seq<Parsed>, b: seq<Parsed>, id: int)
    ensures Times(a + b, id) == Times(a, id) + Times(b, id)
  {
    if b == [] {
      assert a + b == a;
    } else {
      assert Init(a + b) == a + Init(b);
      TimesOfConcat(a, Init(b), id);
    }
  }

  /**
   * A page shows an id as often as it occurs among the readable entries whose key is not in the
   * window: the cursor filters nothing, so a page that repeats an entry has it shown again.
   */
  lemma ShownAsOftenAsRepeated(s: State, entries: seq<Dto>, id: int)
    ensures Times(ServedOf(TakeAll(s, entries).log), id) ==
            Times(ServedOf(s.log), id) + Times(Unseen(Readables(entries), s.fingerprints), id)
  {
    PageServes(s, entries);
    TimesOfConcat(ServedOf(s.log), Unseen(Readables(entries), s.fingerprints), id);
  }

  /** A server that repeats an entry inside a page has it shown twice. */
  lemma RepeatingPageIsShownTwice()
    ensures var d := Dto(Some("5"), Some("agent"), Some("hi"));
            Shown([Connected, PageArrives(0, Page([d, d], false))]) ==
            [Parsed(5, "agent", "hi"), Parsed(5, "agent", "hi")]
  {
    var d, p := Dto(Some("5"), Some("agent"), Some("hi")), Parsed(5, "agent", "hi");
    var e := PageArrives(0, Page([d, d], false));
    assert Decimal(5) == "5";
    ServerRowsParse(5, "agent", "hi");
    StepSnoc([], Connected);
    assert [] + [Connected] == [Connected];
    assert Init([Connected, e]) == [Connected] && Last([Connected, e]) == e && Init([Connected]) == [];
    assert [d, d][1..] == [d] && [d][1..] == [];
    assert Readables([d]) == [p] && Readables([d, d]) == [p, p];
    assert [p, p][1..] == [p] && [p][1..] == [];
    assert [p] + [p] == [p, p];
    UnseenHead(p, [p], []);
    assert Shown([Connected]) == [];
  }

  // ---- the class ----------------------------------------------------------------------------------

  class ServifySession {
    var reconcileCursor: Option<int>
    var reconcileFingerprints: seq<string>
    var reconcileInFlight: bool
    var reconcileQueued: bool
    var sessionVisible: bool
    var unreadCountValue: nat
    ghost var outstanding: seq<Request>
    ghost var runs: nat
    ghost var asked: nat
    ghost var log: seq<Note>

    ghost function View(): State
      reads this
    {
      State(reconcileCursor, reconcileFingerprints, reconcileInFlight, reconcileQueued,
            outstanding, runs, asked, sessionVisible, unreadCountValue, log)
    }

    constructor ()
      ensures View() == START
    {
      reconcileCursor, reconcileFingerprints := None, [];
      reconcileInFlight, reconcileQueued := false, false;
      sessionVisible, unreadCountValue := false, 0;
      outstanding, runs, asked, log := [], 0, 0, [];
    }

    method HandleIncomingMessage(senderType: SenderType, isAi: bool, content: string)
      modifies this
      ensures View() == Step(old(View()), Incoming(senderType, isAi, content))
    {
      var sender := SenderWord(senderType, isAi);
      TrackReconcileFingerprint(sender, content);
      if sender == "agent" || sender == "ai" {
        BumpUnreadIfHidden();
      }
      log := log + [Live(sender, content)];
    }

    method TrackReconcileFingerprint(sender: string, content: string)
      modifies this`reconcileFingerprints
      ensures reconcileFingerprints == Track(old(reconcileFingerprints), Key(sender, content))
    {
      var key := Key(sender, content);
      if key !in reconcileFingerprints {
        reconcileFingerprints := reconcileFingerprints + [key];
      }
      ghost var added := reconcileFingerprints;
      while |reconcileFingerprints| > WINDOW
        invariant Evict(reconcileFingerprints) == Evict(added)
        decreases |reconcileFingerprints|
      {
        reconcileFingerprints := reconcileFingerprints[1..];
      }
    }

    method MarkSessionVisible()
      modifies this
      ensures View() == Step(old(View()), MarkVisible)
    {
      sessionVisible := true;
      log := log + [BecameVisible];
      SetUnreadCount(0);
    }

    method MarkSessionHidden()
      modifies this
      ensures View() == Step(old(View()), MarkHidden)
    {
      sessionVisible := false;
      log := log + [BecameHidden];
    }

    method BumpUnreadIfHidden()
      modifies this`unreadCountValue, this`log
      ensures View() == if old(sessionVisible) then old(View())
                        else SetUnread(old(View()), old(unreadCountValue) + 1)
    {
      if !sessionVisible {
        SetUnreadCount(unreadCountValue + 1);
      }
    }

    method SetUnreadCount(count: nat)
      modifies this`unreadCountValue, this`log
      ensures View() == SetUnread(old(View()), count)
    {
      if count == unreadCountValue {
        return;
      }
      unreadCountValue := count;
      log := log + [UnreadChanged(count)];
    }

    /** Up to the first request, if this call starts a run; `asks` says whether it does. */
    method ReconcileMissedMessages() returns (asks: bool)
      modifies this
      ensures View() == Reconcile(old(View())) && asks == !old(reconcileInFlight)
    {
      if reconcileInFlight {
        reconcileQueued := true;
        return false;
      }
      reconcileInFlight := true;
      runs := runs + 1;
      SendRequest(1);
      return true;
    }

    /** `getVisitorMessages`: a request goes out with the cursor of the moment. */
    method SendRequest(ghost round: nat)
      modifies this`outstanding, this`asked
      ensures View() == Ask(old(View()), round)
    {
      outstanding, asked := outstanding + [Request(reconcileCursor, round)], asked + 1;
    }

    /**
     * The rest of a run after its request `k` was answered; `rounds` is the count the run keeps, and
     * `asks` says whether a request follows.
     */
    method OnReconcilePage(ghost k: nat, rounds: nat, page: PageResult) returns (asks: bool)
      requires k < |outstanding| && outstanding[k].round == rounds
      modifies this
      ensures View() == Step(old(View()), PageArrives(k, page))
      ensures asks <==> |outstanding| == |old(outstanding)|
    {
      outstanding := outstanding[..k] + outstanding[k + 1..];
      if page.Page? {
        TakeMessages(page.messages);
        if page.hasMore && rounds < MAX_PAGES {
          SendRequest(rounds + 1);
          return true;
        }
      }
      reconcileInFlight := false;
      if reconcileQueued {
        reconcileQueued := false;
        asks := ReconcileMissedMessages();
      } else {
        asks := false;
      }
    }

    method TakeMessages(messages: seq<Dto>)
      modifies this`reconcileCursor, this`unreadCountValue, this`log
      ensures View() == TakeAll(old(View()), messages)
    {
      var i := 0;
      ghost var start := View();
      while i < |messages|
        invariant 0 <= i <= |messages|
        invariant TakeAll(View(), messages[i..]) == TakeAll(start, messages)
      {
        var parsed := ParseVisitorMessage(messages[i]);
        if parsed.Some? {
          TakeParsed(parsed.value);
        }
        i := i + 1;
      }
    }

    method TakeParsed(p: Parsed)
      modifies this`reconcileCursor, this`unreadCountValue, this`log
      ensures View() == Take(old(View()), p)
    {
      if reconcileCursor.None? || p.numericId > reconcileCursor.value {
        reconcileCursor := Some(p.numericId);
      }
      if Key(p.sender, p.content) in reconcileFingerprints {
        log := log + [Suppressed(p.numericId, p.sender, p.content)];
        return;
      }
      if p.sender == "agent" || p.sender == "ai" {
        BumpUnreadIfHidden();
      }
      log := log + [Served(p.numericId, p.sender, p.content)];
    }
  }
}
