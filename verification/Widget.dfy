/**
 * The embeddable chat widget: its streaming bubble, the contents it remembers, and the page-by-page
 * catch-up it starts on every connect. Catch-up runs may overlap; they share one cursor.
 */
module Widget {
  import opened Common
  import opened Streaming

  datatype Role = User | Bot | System

  datatype Bubble = Bubble(role: Role, text: string)

  /** The open streaming bubble; `bubble` is its place in the message list. */
  datatype Live = Live(bubble: nat, content: string, done: bool)

  /**
   * A message of a catch-up page; a content that is not a string reads as "", an id that is missing or
   * falsy as `None`.
   */
  datatype Entry = Entry(id: Option<nat>, sender: string, content: string)

  datatype Page = Page(messages: seq<Entry>, hasMore: bool)

  /** A catch-up request on its way: the run it belongs to and the cursor it was sent with. */
  datatype Request = Request(run: nat, after: Option<nat>)

  /** What happened to a content, in order. */
  datatype Note = Remembered(text: string) | Added(text: string)

  datatype State = State(
    msgs: seq<Bubble>,
    streaming: Option<Live>,
    seen: set<string>,
    cursor: Option<nat>,
    outstanding: seq<Request>,
    sent: seq<Request>,
    runs: nat,
    notes: seq<Note>)

  datatype Event =
    | FrameDelta(payload: Payload)
    | FrameFinal(text: string)
    | FrameSpeech(text: string)
    | FrameNotice(text: string)
    | UserSends(text: string)
    | ConnectionLost(viaError: bool)
    | ConnectionUp
    | PageArrives(k: nat, page: Page)
    | PageFails(k: nat)

  const BLANK := State([], None, {}, None, [], [], 0, [])
  const CURSOR_MARK := "\U{258C}"

  /** The names every JavaScript object answers to before anything is stored in it. */
  const INHERITED_NAMES: set<string> := {
    "constructor", "hasOwnProperty", "isPrototypeOf", "propertyIsEnumerable", "toLocaleString",
    "toString", "valueOf", "__proto__", "__defineGetter__", "__defineSetter__",
    "__lookupGetter__", "__lookupSetter__"}

  // ---- messages and memory ------------------------------------------------------------------

  function AddMsg(s: State, role: Role, text: string): State {
    s.(msgs := s.msgs + [Bubble(role, text)])
  }

  function Remember(s: State, text: string): State {
    if text == "" then s else s.(seen := s.seen + {text}, notes := s.notes + [Remembered(text)])
  }

  /** The test `seenContents[content]`. */
  predicate Known(s: State, text: string) {
    text in s.seen || text in INHERITED_NAMES
  }

  // ---- the streaming bubble -----------------------------------------------------------------

  function Shown(l: Live): string {
    if l.done then l.content else l.content + CURSOR_MARK
  }

  function Paint(s: State, at: nat, text: string): State {
    if at < |s.msgs| then s.(msgs := s.msgs[at := s.msgs[at].(text := text)]) else s
  }

  function OnDelta(s: State, p: Payload): State {
    match p
    case Malformed => s
    case Payload(text, done) =>
      var ready := if s.streaming.Some? then s
                    else AddMsg(s, Bot, "").(streaming := Some(Live(|s.msgs|, "", false)));
      var l := ready.streaming.value;
      if l.done then ready
      else
        var l' := Live(l.bubble, l.content + text, done);
        Paint(ready.(streaming := Some(l')), l.bubble, Shown(l'))
  }

  function OnFinal(s: State, text: string): State {
    if text == "" then s
    else
      var r := Remember(s, text);
      if s.streaming.Some? then Paint(r.(streaming := None), s.streaming.value.bubble, text)
      else AddMsg(r, Bot, text)
  }

  function OnLost(s: State): State {
    if s.streaming.None? then s
    else
      var l, closed := s.streaming.value, s.(streaming := None);
      if l.content != "" then
        AddMsg(Remember(Paint(closed, l.bubble, l.content), l.content), System, INTERRUPTED)
      else if l.bubble < |s.msgs| then
        closed.(msgs := s.msgs[..l.bubble] + s.msgs[l.bubble + 1..])
      else closed
  }

  const INTERRUPTED := "\U{56DE}\U{7B54}\U{4E2D}\U{65AD}\U{FF0C}\U{8BF7}\U{91CD}\U{8BD5}"

  // ---- catch-up -----------------------------------------------------------------------------

  function RoleOf(sender: string): Role {
    if sender == "system" then System else if sender == "customer" then User else Bot
  }

  function Absorb(s: State, m: Entry): State {
    if m.content == "" || Known(s, m.content) then s
    else AddMsg(s.(seen := s.seen + {m.content}, notes := s.notes + [Added(m.content)]),
                RoleOf(m.sender), m.content)
  }

  function AbsorbAll(s: State, ms: seq<Entry>): State
    decreases |ms|
  {
    if ms == [] then s else AbsorbAll(Absorb(s, ms[0]), ms[1..])
  }

  /** The id of the last message that has one. */
  function LastId(ms: seq<Entry>): Option<nat> {
    if ms == [] then None
    else if Last(ms).id.Some? then Last(ms).id
    else LastId(Init(ms))
  }

  /** `reconcileMessages`: send one request with the cursor of the moment. */
  function Ask(s: State, run: nat): State {
    var r := Request(run, s.cursor);
    s.(outstanding := s.outstanding + [r], sent := s.sent + [r])
  }

  function Answered(s: State, k: nat): State
    requires k < |s.outstanding|
  {
    s.(outstanding := s.outstanding[..k] + s.outstanding[k + 1..])
  }

  function OnPage(s: State, k: nat, page: Page): State
    requires k < |s.outstanding|
  {
    var t := Answered(s, k);
    if page.messages == [] then t
    else
      var last := LastId(page.messages);
      var u := AbsorbAll(t, page.messages);
      if last.None? then u
      else if page.hasMore then Ask(u.(cursor := last), s.outstanding[k].run)
      else u.(cursor := last)
  }

  function Step(s: State, e: Event): State {
    match e
    case FrameDelta(p) => OnDelta(s, p)
    case FrameFinal(text) => OnFinal(s, text)
    case FrameSpeech(text) => if text == "" then s else AddMsg(Remember(s, text), Bot, text)
    case FrameNotice(text) => if text == "" then s else AddMsg(Remember(s, text), System, text)
    case UserSends(text) => if text == "" then s else Remember(AddMsg(s, User, text), text)
    case ConnectionLost(_) => OnLost(s)
    case ConnectionUp => Ask(s.(runs := s.runs + 1), s.runs)
    case PageArrives(k, page) => if k < |s.outstanding| then OnPage(s, k, page) else s
    case PageFails(k) => if k < |s.outstanding| then Answered(s, k) else s
  }

  function StateAfter(h: seq<Event>): State {
    if h == [] then BLANK else Step(StateAfter(Init(h)), Last(h))
  }

  // ---- the streaming bubble over whole runs ---------------------------------------------------

  /** The streaming bubble is a bot bubble of the list and shows the text received so far, with a mark until done. */
  ghost predicate BubbleInPlace(s: State) {
    s.streaming.Some? ==>
      var l := s.streaming.value;
      l.bubble < |s.msgs| && s.msgs[l.bubble].role == Bot &&
      s.msgs[l.bubble].text == l.content + if l.done then "" else "\U{258C}"
  }

  lemma {:induction false} AbsorbAllFrame(s: State, ms: seq<Entry>)
    ensures var t := AbsorbAll(s, ms);
            && t == s.(msgs := t.msgs, seen := t.seen, notes := t.notes)
            && s.msgs <= t.msgs
    decreases |ms|
  {
    if ms != [] {
      AbsorbAllFrame(Absorb(s, ms[0]), ms[1..]);
    }
  }

  lemma {:induction false} BubbleStaysInPlace(h: seq<Event>)
    ensures BubbleInPlace(StateAfter(h))
  {
    if h != [] {
      var s, e := StateAfter(Init(h)), Last(h);
      BubbleStaysInPlace(Init(h));
      if e.PageArrives? && e.k < |s.outstanding| {
        AbsorbAllFrame(Answered(s, e.k), e.page.messages);
      }
    }
  }

  /**
   * What a lost connection leaves of an answer: its text, without the mark, remembered and followed by a
   * notice that it was interrupted; and of an answer without text nothing, not even its bubble.
   */
  lemma LossKeepsText(h: seq<Event>, viaError: bool)
    requires StateAfter(h).streaming.Some?
    ensures var s, t := StateAfter(h), StateAfter(h + [ConnectionLost(viaError)]);
            var l := s.streaming.value;
            && t.streaming == None && l.bubble < |s.msgs|
            && (l.content != "" ==>
                  t.msgs == s.msgs[l.bubble := Bubble(Bot, l.content)] + [Bubble(System, INTERRUPTED)] &&
                  t.seen == s.seen + {l.content})
            && (l.content == "" ==> t.msgs == s.msgs[..l.bubble] + s.msgs[l.bubble + 1..] && t.seen == s.seen)
  {
    BubbleStaysInPlace(h);
    assert Init(h + [ConnectionLost(viaError)]) == h;
  }

  /** What a final frame leaves: its text in the open bubble, or in a new one, remembered. */
  lemma FinalShowsText(h: seq<Event>, text: string)
    requires text != ""
    ensures var s, t := StateAfter(h), StateAfter(h + [FrameFinal(text)]);
            && t.streaming == None && t.seen == s.seen + {text}
            && (s.streaming.None? ==> t.msgs == s.msgs + [Bubble(Bot, text)])
            && (s.streaming.Some? ==>
                  s.streaming.value.bubble < |s.msgs| &&
                  t.msgs == s.msgs[s.streaming.value.bubble := Bubble(Bot, text)])
  {
    BubbleStaysInPlace(h);
    assert Init(h + [FrameFinal(text)]) == h;
  }

  /** An empty text, from whomever, does nothing at all. */
  lemma EmptyTextIsIgnored(h: seq<Event>, e: Event)
    requires e in [FrameFinal(""), FrameSpeech(""), FrameNotice(""), UserSends("")]
    ensures StateAfter(h + [e]) == StateAfter(h)
  {
    assert Init(h + [e]) == h;
  }

  /** Any other message - an agent's, a notice, the visitor's own - is one bubble more, and remembered. */
  lemma MessageIsShown(h: seq<Event>, e: Event, role: Role, text: string)
    requires text != "" && (e, role) in [(FrameSpeech(text), Bot), (FrameNotice(text), System), (UserSends(text), User)]
    ensures var s, t := StateAfter(h), StateAfter(h + [e]);
            t.msgs == s.msgs + [Bubble(role, text)] && t.seen == s.seen + {text} && t.streaming == s.streaming
  {
    assert Init(h + [e]) == h;
  }

  // ---- agreement with the assembler -----------------------------------------------------------

  /** The assembler's view of a widget event; it does not react to a bare socket error. */
  function ForAssembler(e: Event): Option<Input> {
    match e
    case FrameDelta(p) => Some(Delta(p))
    case FrameFinal(_) => Some(FinalFrame)
    case ConnectionLost(false) => Some(Disconnected)
    case _ => None
  }

  function AssemblerNext(a: Assembler, e: Event): Assembler {
    var i := ForAssembler(e);
    if i.None? then a else Streaming.Next(a, i.value)
  }

  function AssemblerInputs(h: seq<Event>): seq<Input> {
    if h == [] then []
    else
      var i := ForAssembler(Last(h));
      AssemblerInputs(Init(h)) + if i.None? then [] else [i.value]
  }

  function AssemblerAfter(h: seq<Event>): Assembler {
    Streaming.StateAfter(AssemblerInputs(h))
  }

  lemma AssemblerSnoc(h: seq<Event>, e: Event)
    ensures AssemblerAfter(h + [e]) == AssemblerNext(AssemblerAfter(h), e)
    ensures StateAfter(h + [e]) == Step(StateAfter(h), e)
  {
    assert Init(h + [e]) == h;
    var i := ForAssembler(e);
    if i.Some? {
      StepSnoc(AssemblerInputs(h), i.value);
    } else {
      assert AssemblerInputs(h) + [] == AssemblerInputs(h);
    }
  }

  /** The two hold the same stream: open or not, its text, and whether further deltas count. */
  ghost predicate InStep(a: Assembler, s: State) {
    && (a.streamId.None? <==> s.streaming.None?)
    && a.terminalDeltaSeen == (s.streaming.Some? && s.streaming.value.done)
    && Text.Concat(a.parts) == if s.streaming.Some? then s.streaming.value.content else ""
  }

  /** The inputs on which the two implementations do the same thing. */
  predicate Agreeable(a: Assembler, e: Event) {
    match e
    case FrameDelta(Payload(text, done)) => a.streamId.Some? || text != "" || !done
    case FrameFinal(text) => a.streamId.None? || text != ""
    case ConnectionLost(viaError) => a.streamId.None? || !viaError
    case _ => true
  }

  lemma StepAgrees(a: Assembler, s: State, e: Event)
    requires Consistent(a) && InStep(a, s)
    ensures InStep(AssemblerNext(a, e), Step(s, e)) <==> Agreeable(a, e)
  {
    match e
    case FrameDelta(Payload(text, done)) => DeltaAgrees(a, s, text, done);
    case PageArrives(k, page) =>
      if k < |s.outstanding| {
        AbsorbAllFrame(Answered(s, k), page.messages);
      }
    case ConnectionLost(viaError) => LossAgrees(a, s, viaError);
    case FrameFinal(text) => FinalAgrees(a, s, text);
    case _ =>
  }

  lemma LossAgrees(a: Assembler, s: State, viaError: bool)
    requires Consistent(a) && InStep(a, s)
    ensures InStep(AssemblerNext(a, ConnectionLost(viaError)), OnLost(s)) <==> a.streamId.None? || !viaError
  {
    assert Text.Concat([]) == "";
  }

  lemma FinalAgrees(a: Assembler, s: State, text: string)
    requires Consistent(a) && InStep(a, s)
    ensures InStep(AfterClose(a), OnFinal(s, text)) <==> a.streamId.None? || text != ""
  {
    assert Text.Concat([]) == "";
  }

  lemma DeltaAgrees(a: Assembler, s: State, text: string, done: bool)
    requires Consistent(a) && InStep(a, s)
    ensures InStep(AfterDelta(a, text, done), OnDelta(s, Payload(text, done))) <==>
            a.streamId.Some? || text != "" || !done
  {
    AppendGrows(a, text);
  }

  /** In step now and at every earlier point of the run. */
  ghost predicate AlwaysInStep(h: seq<Event>) {
    InStep(AssemblerAfter(h), StateAfter(h)) && (h != [] ==> AlwaysInStep(Init(h)))
  }

  /** Every event of the run was agreeable when it came. */
  predicate AlwaysAgreeable(h: seq<Event>) {
    h != [] ==> Agreeable(AssemblerAfter(Init(h)), Last(h)) && AlwaysAgreeable(Init(h))
  }

  /**
   * Over a whole run the widget and the assembler hold the same stream at every point if and only
   * if no answer opens with an empty terminal delta, no open answer gets a final frame without
   * text, and no socket error comes while an answer is open.
   */
  lemma {:induction false} ImplementationsAgree(h: seq<Event>)
    ensures AlwaysInStep(h) <==> AlwaysAgreeable(h)
  {
    if h != [] {
      var g, e := Init(h), Last(h);
      assert g + [e] == h;
      ImplementationsAgree(g);
      AssemblerSnoc(g, e);
      LogIsWellOrdered(AssemblerInputs(g));
      if AlwaysInStep(g) {
        StepAgrees(AssemblerAfter(g), StateAfter(g), e);
      }
    }
  }

  /** The three ways to part, each after a run that was in step. */
  lemma EmptyTerminalParts()
    ensures var h := [FrameDelta(Payload("", true))];
            !AlwaysInStep(h) && AlwaysInStep(Init(h))
            && AssemblerAfter(h).streamId.None? && StateAfter(h).streaming.Some?
  {
    var e := FrameDelta(Payload("", true));
    AssemblerSnoc([], e);
    Parts([], e);
  }

  lemma EmptyFinalParts(text: string)
    ensures var h := [FrameDelta(Payload(text, false)), FrameFinal("")];
            !AlwaysInStep(h) && AlwaysInStep(Init(h))
            && AssemblerAfter(h).streamId.None? && StateAfter(h).streaming.Some?
  {
    var g := [] + [FrameDelta(Payload(text, false))];
    AssemblerSnoc([], FrameDelta(Payload(text, false)));
    AssemblerSnoc(g, FrameFinal(""));
    AnswerIsInStep(g, text);
    Parts(g, FrameFinal(""));
    assert g + [FrameFinal("")] == [FrameDelta(Payload(text, false)), FrameFinal("")];
  }

  lemma SocketErrorParts(text: string)
    ensures var h := [FrameDelta(Payload(text, false)), ConnectionLost(true)];
            !AlwaysInStep(h) && AlwaysInStep(Init(h))
            && AssemblerAfter(h).streamId.Some? && StateAfter(h).streaming.None?
  {
    var g := [] + [FrameDelta(Payload(text, false))];
    AssemblerSnoc([], FrameDelta(Payload(text, false)));
    AssemblerSnoc(g, ConnectionLost(true));
    AnswerIsInStep(g, text);
    Parts(g, ConnectionLost(true));
    assert g + [ConnectionLost(true)] == [FrameDelta(Payload(text, false)), ConnectionLost(true)];
  }

  lemma AnswerIsInStep(g: seq<Event>, text: string)
    requires g == [FrameDelta(Payload(text, false))]
    ensures AlwaysAgreeable(g)
  {
    assert Init(g) == [];
  }

  /** A run parts where its first event comes that is not agreeable. */
  lemma Parts(g: seq<Event>, e: Event)
    requires AlwaysAgreeable(g) && !Agreeable(AssemblerAfter(g), e)
    ensures AlwaysInStep(g) && !AlwaysInStep(g + [e]) && Init(g + [e]) == g
  {
    ImplementationsAgree(g);
    ImplementationsAgree(g + [e]);
    assert Init(g + [e]) == g;
  }

  datatype Verdict = NothingOpen | Discarded | Kept(text: string)

  /** What a lost connection does to the assembler's stream, read off the event it emits. */
  function AssemblerVerdict(a: Assembler): Verdict {
    var out := Emitted(a, Disconnected);
    if a.streamId.None? then NothingOpen
    else if |out| == 1 && out[0].EndInterrupted? then Kept(out[0].content)
    else Discarded
  }

  /** What it does to the widget's: the bubble stays with a note after it, or goes. */
  function WidgetVerdict(s: State): Verdict {
    var t := Step(s, ConnectionLost(false));
    if s.streaming.None? then NothingOpen
    else if |t.msgs| == |s.msgs| + 1 && s.streaming.value.bubble < |t.msgs|
      then Kept(t.msgs[s.streaming.value.bubble].text)
    else Discarded
  }

  /** While in step they ignore the same deltas and take the same decision on a lost connection. */
  lemma SameDecisions(a: Assembler, s: State, text: string, done: bool)
    requires InStep(a, s) && BubbleInPlace(s)
    ensures AssemblerVerdict(a) == WidgetVerdict(s)
    ensures OutcomeOf(a, done) == Rejected <==> s.streaming.Some? && s.streaming.value.done
    ensures OutcomeOf(a, done) == Rejected ==> OnDelta(s, Payload(text, done)) == s
  {
  }

  lemma DisconnectStep(a: Assembler, s: State)
    requires Consistent(a)
    ensures InStep(AfterClose(a), OnLost(s)) <==> !(a.streamId.None? && a.terminalDeltaSeen)
  {
    assert Text.Concat([]) == "";
  }

  lemma StuckIffWedged(i: seq<Input>)
    ensures Streaming.StateAfter(i).streamId.None? && Streaming.StateAfter(i).terminalDeltaSeen <==> Wedged(i)
  {
    StateReflectsFrames(i);
    if !Wedged(i) && SinceClose(i) == [] {
      assert !TerminalReceived(i);
    }
  }

  lemma RealignsUnlessWedged(i: seq<Input>, s: State)
    ensures InStep(AfterClose(Streaming.StateAfter(i)), OnLost(s)) <==> !Wedged(i)
  {
    LogIsWellOrdered(i);
    DisconnectStep(Streaming.StateAfter(i), s);
    StuckIffWedged(i);
  }

  /** A lost connection brings the two back in step unless the assembler is stuck. */
  lemma DisconnectRealigns(h: seq<Event>)
    ensures InStep(AssemblerAfter(h + [ConnectionLost(false)]), StateAfter(h + [ConnectionLost(false)]))
            <==> !Wedged(AssemblerInputs(h))
  {
    LossSnoc(h);
    RealignsUnlessWedged(AssemblerInputs(h), StateAfter(h));
  }

  lemma LossSnoc(h: seq<Event>)
    ensures AssemblerAfter(h + [ConnectionLost(false)]) == AfterClose(Streaming.StateAfter(AssemblerInputs(h)))
    ensures StateAfter(h + [ConnectionLost(false)]) == OnLost(StateAfter(h))
  {
    AssemblerSnoc(h, ConnectionLost(false));
  }

  predicate IsCatchUp(e: Event) {
    e.ConnectionUp? || e.PageArrives? || e.PageFails?
  }

  lemma ChatFrame(s: State, e: Event)
    requires !IsCatchUp(e)
    ensures var t := Step(s, e);
            t.outstanding == s.outstanding && t.sent == s.sent && t.runs == s.runs && t.cursor == s.cursor
  {
  }

  // ---- catch-up over whole runs -----------------------------------------------------------------

  /** Nothing is added by catch-up that was remembered or added before. */
  ghost predicate NoRepeats(notes: seq<Note>) {
    forall i, j :: 0 <= i < j < |notes| && notes[j].Added? ==> notes[i].text != notes[j].text
  }

  /** What is remembered is exactly what was noted. */
  ghost predicate NotesAreSeen(s: State) {
    && (forall n :: n in s.notes ==> n.text in s.seen)
    && (forall text :: text in s.seen ==> Remembered(text) in s.notes || Added(text) in s.notes)
  }

  /** One more note, of a content not seen before unless it is remembered once more. */
  lemma NoteKeepsMemory(s: State, t: State, n: Note)
    requires NoRepeats(s.notes) && NotesAreSeen(s) && (n.Added? ==> n.text !in s.seen)
    requires t.seen == s.seen + {n.text} && t.notes == s.notes + [n]
    ensures NoRepeats(t.notes) && NotesAreSeen(t)
  {
    assert n in t.notes;
    forall text | text in t.seen
      ensures Remembered(text) in t.notes || Added(text) in t.notes
    {
      if text in s.seen {
        assert forall x :: x in s.notes ==> x in t.notes;
      }
    }
  }

  lemma {:induction false} AbsorbAllKeepsMemory(s: State, ms: seq<Entry>)
    requires NoRepeats(s.notes) && NotesAreSeen(s)
    ensures NoRepeats(AbsorbAll(s, ms).notes) && NotesAreSeen(AbsorbAll(s, ms))
    decreases |ms|
  {
    if ms != [] {
      var t := Absorb(s, ms[0]);
      if t != s {
        NoteKeepsMemory(s, t, Added(ms[0].content));
      }
      AbsorbAllKeepsMemory(t, ms[1..]);
    }
  }

  /** Other events remember one content at most. */
  lemma RemembersOne(s: State, e: Event) returns (text: string)
    requires !e.PageArrives?
    ensures var t := Step(s, e);
            || (t.seen == s.seen && t.notes == s.notes)
            || (t.seen == s.seen + {text} && t.notes == s.notes + [Remembered(text)])
  {
    text := match e
      case FrameFinal(x) => x
      case FrameSpeech(x) => x
      case FrameNotice(x) => x
      case UserSends(x) => x
      case ConnectionLost(_) => if s.streaming.Some? then s.streaming.value.content else ""
      case _ => "";
  }

  lemma StepKeepsMemory(s: State, e: Event)
    requires NoRepeats(s.notes) && NotesAreSeen(s)
    ensures NoRepeats(Step(s, e).notes) && NotesAreSeen(Step(s, e))
  {
    if e.PageArrives? {
      if e.k < |s.outstanding| {
        AbsorbAllKeepsMemory(Answered(s, e.k), e.page.messages);
        AbsorbAllFrame(Answered(s, e.k), e.page.messages);
      }
    } else {
      var text := RemembersOne(s, e);
      var t := Step(s, e);
      if t.notes != s.notes {
        NoteKeepsMemory(s, t, Remembered(text));
      }
    }
  }

  /** However many catch-up runs overlap, no content is added twice or after it was rendered. */
  lemma {:induction false} CatchUpNeverRepeats(h: seq<Event>)
    ensures NoRepeats(StateAfter(h).notes) && NotesAreSeen(StateAfter(h))
  {
    if h != [] {
      CatchUpNeverRepeats(Init(h));
      StepKeepsMemory(StateAfter(Init(h)), Last(h));
    }
  }

  /** A content that is a name every object answers to is never shown by catch-up. */
  ghost predicate NoneInherited(notes: seq<Note>) {
    forall n :: n in notes && n.Added? ==> n.text !in INHERITED_NAMES
  }

  lemma {:induction false} AbsorbAllSkipsInherited(s: State, ms: seq<Entry>)
    requires NoneInherited(s.notes)
    ensures NoneInherited(AbsorbAll(s, ms).notes)
    decreases |ms|
  {
    if ms != [] {
      AbsorbAllSkipsInherited(Absorb(s, ms[0]), ms[1..]);
    }
  }

  lemma StepSkipsInherited(s: State, e: Event)
    requires NoneInherited(s.notes)
    ensures NoneInherited(Step(s, e).notes)
  {
    if e.PageArrives? && e.k < |s.outstanding| {
      AbsorbAllSkipsInherited(Answered(s, e.k), e.page.messages);
    }
  }

  lemma {:induction false} InheritedNamesAreNeverAdded(h: seq<Event>)
    ensures NoneInherited(StateAfter(h).notes)
  {
    if h != [] {
      InheritedNamesAreNeverAdded(Init(h));
      StepSkipsInherited(StateAfter(Init(h)), Last(h));
    }
  }

  /** The contents a page adds, in page order. */
  function Novel(s: State, ms: seq<Entry>): seq<Bubble>
    decreases |ms|
  {
    if ms == [] then []
    else (if ms[0].content == "" || Known(s, ms[0].content) then []
          else [Bubble(RoleOf(ms[0].sender), ms[0].content)]) + Novel(Absorb(s, ms[0]), ms[1..])
  }

  /** A page's contents are appended in page order, and all of them are known afterwards. */
  lemma {:induction false} PageIsAbsorbed(s: State, ms: seq<Entry>)
    ensures AbsorbAll(s, ms).msgs == s.msgs + Novel(s, ms)
    ensures s.seen <= AbsorbAll(s, ms).seen
    ensures forall i :: 0 <= i < |ms| && ms[i].content != "" ==> Known(AbsorbAll(s, ms), ms[i].content)
    decreases |ms|
  {
    if ms != [] {
      var u := Absorb(s, ms[0]);
      PageIsAbsorbed(u, ms[1..]);
      assert u.msgs + Novel(u, ms[1..]) == s.msgs + Novel(s, ms);
      forall i | 0 <= i < |ms| && ms[i].content != ""
        ensures Known(AbsorbAll(s, ms), ms[i].content)
      {
        if i > 0 {
          assert ms[i] == ms[1..][i - 1];
        }
      }
    }
  }

  /** Every content of the page that was not known before is among those shown. */
  lemma {:induction false} NovelIsShown(s: State, ms: seq<Entry>, i: nat) returns (j: nat)
    requires i < |ms| && ms[i].content != "" && !Known(s, ms[i].content)
    ensures j < |Novel(s, ms)| && Novel(s, ms)[j].text == ms[i].content
    decreases |ms|
  {
    if ms[0].content == ms[i].content {
      j := 0;
    } else {
      j := NovelIsShown(Absorb(s, ms[0]), ms[1..], i - 1);
      j := j + |Novel(s, ms)| - |Novel(Absorb(s, ms[0]), ms[1..])|;
    }
  }

  lemma {:induction false} NovelsAreNotInherited(s: State, ms: seq<Entry>)
    ensures forall b :: b in Novel(s, ms) ==> b.text !in INHERITED_NAMES
    decreases |ms|
  {
    if ms != [] {
      NovelsAreNotInherited(Absorb(s, ms[0]), ms[1..]);
    }
  }

  predicate IsAmong(bubbles: seq<Bubble>, text: string) {
    exists b :: b in bubbles && b.text == text
  }

  /** A content of a page that was neither remembered nor added before is shown unless every object answers to it. */
  lemma ShownUnlessInherited(s: State, ms: seq<Entry>, i: nat)
    requires i < |ms| && ms[i].content != "" && ms[i].content !in s.seen
    ensures IsAmong(Novel(s, ms), ms[i].content) <==> ms[i].content !in INHERITED_NAMES
  {
    NovelsAreNotInherited(s, ms);
    if ms[i].content !in INHERITED_NAMES {
      var j := NovelIsShown(s, ms, i);
      assert Novel(s, ms)[j] in Novel(s, ms);
    }
  }

  /** An agent's "constructor" that was missed live is passed over: the cursor moves, nothing is shown. */
  lemma InheritedNameIsLost()
    ensures var m := Entry(Some(1), "agent", "constructor");
            var s := StateAfter([ConnectionUp, PageArrives(0, Page([m], false))]);
            s.msgs == [] && s.cursor == Some(1)
  {
    var m := Entry(Some(1), "agent", "constructor");
    var h := [ConnectionUp];
    assert Init(h) == [] && Init(h + [PageArrives(0, Page([m], false))]) == h;
    assert h + [PageArrives(0, Page([m], false))] == [ConnectionUp, PageArrives(0, Page([m], false))];
    assert [m][1..] == [] && Last([m]) == m;
    var s := Answered(StateAfter(h), 0);
    assert Absorb(s, m) == s;
    assert AbsorbAll(s, [m]) == s;
  }

  // ---- a run goes on ------------------------------------------------------------------------------

  /** The id of the last entry that has one, if any has. */
  predicate IsLastId(ms: seq<Entry>, id: Option<nat>) {
    if id.Some? then exists i :: 0 <= i < |ms| && ms[i].id == id && NoIdFrom(ms, i + 1) else NoIdFrom(ms, 0)
  }

  predicate NoIdFrom(ms: seq<Entry>, n: nat) {
    forall j :: n <= j < |ms| ==> ms[j].id.None?
  }

  lemma {:induction false} LastIdIsLast(ms: seq<Entry>)
    ensures IsLastId(ms, LastId(ms))
  {
    if ms != [] {
      if Last(ms).id.Some? {
        assert ms[|ms| - 1].id == LastId(ms) && NoIdFrom(ms, |ms|);
      } else {
        LastIdIsLast(Init(ms));
        if LastId(ms).Some? {
          var i :| 0 <= i < |Init(ms)| && Init(ms)[i].id == LastId(ms) && NoIdFrom(Init(ms), i + 1);
          assert ms[i].id == LastId(ms) && NoIdFrom(ms, i + 1);
        }
      }
    }
  }

  /**
   * What follows a page: the cursor is the last id in it, and if more is reported the same run asks again
   * with that cursor, once; a page without any id ends the run where it was.
   */
  lemma RunGoesOn(h: seq<Event>, k: nat, page: Page) returns (last: Option<nat>)
    requires k < |StateAfter(h).outstanding|
    ensures IsLastId(page.messages, last)
    ensures var s, t := StateAfter(h), StateAfter(h + [PageArrives(k, page)]);
            var others := s.outstanding[..k] + s.outstanding[k + 1..];
            var more := if page.hasMore && last.Some? then [Request(s.outstanding[k].run, last)] else [];
            && t.cursor == (if last.Some? then last else s.cursor)
            && t.outstanding == others + more && t.sent == s.sent + more && t.runs == s.runs
  {
    var s := StateAfter(h);
    assert Init(h + [PageArrives(k, page)]) == h;
    last := LastId(page.messages);
    LastIdIsLast(page.messages);
    AbsorbAllFrame(Answered(s, k), page.messages);
    assert s.sent + [] == s.sent;
  }

  /** A request that fails ends its run where it was: nothing but the request is gone. */
  lemma FailureEndsRun(h: seq<Event>, k: nat)
    requires k < |StateAfter(h).outstanding|
    ensures var s := StateAfter(h);
            StateAfter(h + [PageFails(k)]) == s.(outstanding := s.outstanding[..k] + s.outstanding[k + 1..])
  {
    assert Init(h + [PageFails(k)]) == h;
  }

  /** A connect sends one request, with the cursor as it is, for a run that has sent none yet. */
  lemma ConnectAsks(h: seq<Event>) returns (run: nat)
    ensures var s, t := StateAfter(h), StateAfter(h + [ConnectionUp]);
            && t == s.(runs := t.runs, outstanding := s.outstanding + [Request(run, s.cursor)],
                       sent := s.sent + [Request(run, s.cursor)])
            && run < t.runs && forall r :: r in s.sent ==> r.run != run
  {
    assert Init(h + [ConnectionUp]) == h;
    RunsAreFresh(h);
    run := StateAfter(h).runs;
  }

  lemma {:induction false} RunsAreFresh(h: seq<Event>)
    ensures var s := StateAfter(h);
            (forall r :: r in s.sent ==> r.run < s.runs) && (forall r :: r in s.outstanding ==> r.run < s.runs)
  {
    if h != [] {
      var s, e := StateAfter(Init(h)), Last(h);
      RunsAreFresh(Init(h));
      if !IsCatchUp(e) {
        ChatFrame(s, e);
      } else if e.PageArrives? && e.k < |s.outstanding| {
        AbsorbAllFrame(Answered(s, e.k), e.page.messages);
      }
    }
  }

  // ---- termination of a run ---------------------------------------------------------------------

  /** The ids a request can still be answered with. */
  function Above(rows: set<nat>, after: Option<nat>): set<nat> {
    set id | id in rows && (after.None? || after.value < id)
  }

  /** The server answers with stored messages above the cursor of the request. */
  ghost predicate Honest(rows: set<nat>, after: Option<nat>, page: Page) {
    forall m :: m in page.messages && m.id.Some? ==> m.id.value in Above(rows, after)
  }

  ghost predicate HonestEvent(rows: set<nat>, s: State, e: Event) {
    e.PageArrives? && e.k < |s.outstanding| ==> Honest(rows, s.outstanding[e.k].after, e.page)
  }

  /** Every page of the run was honest about one fixed set of stored messages. */
  ghost predicate HonestRun(rows: set<nat>, h: seq<Event>) {
    h != [] ==> HonestEvent(rows, StateAfter(Init(h)), Last(h)) && HonestRun(rows, Init(h))
  }

  function SentBy(sent: seq<Request>, run: nat): nat {
    if sent == [] then 0
    else SentBy(Init(sent), run) + if Last(sent).run == run then 1 else 0
  }

  lemma {:induction false} LastIdOccurs(ms: seq<Entry>)
    ensures LastId(ms).Some? ==> exists m :: m in ms && m.id == LastId(ms)
  {
    if ms != [] {
      if Last(ms).id.Some? {
        assert Last(ms) in ms;
      } else {
        LastIdOccurs(Init(ms));
      }
    }
  }

  lemma SubsetSize<T>(a: set<T>, b: set<T>)
    requires a <= b
    ensures |a| <= |b|
  {
    if a != {} {
      var x :| x in a;
      SubsetSize(a - {x}, b - {x});
    }
  }

  lemma AboveShrinks(rows: set<nat>, after: Option<nat>, last: nat)
    requires last in Above(rows, after)
    ensures |Above(rows, Some(last))| < |Above(rows, after)|
  {
    assert Above(rows, Some(last)) <= Above(rows, after) - {last};
    SubsetSize(Above(rows, Some(last)), Above(rows, after) - {last});
  }

  /** A run has one request on its way at most, and what it sent plus what it can still ask is bounded. */
  ghost predicate Budgeted(rows: set<nat>, s: State) {
    && (forall r :: r in s.sent ==> r.run < s.runs)
    && (forall i :: 0 <= i < |s.outstanding| ==>
          var r := s.outstanding[i];
          r.run < s.runs && SentBy(s.sent, r.run) + |Above(rows, r.after)| <= |rows| + 1)
    && (forall i, j :: 0 <= i < j < |s.outstanding| ==> s.outstanding[i].run != s.outstanding[j].run)
    && (forall run :: SentBy(s.sent, run) <= |rows| + 1)
  }

  lemma {:induction false} NothingSentYet(sent: seq<Request>, run: nat)
    requires forall r :: r in sent ==> r.run < run
    ensures SentBy(sent, run) == 0
  {
    if sent != [] {
      assert Last(sent) in sent;
      NothingSentYet(Init(sent), run);
    }
  }

  lemma AskCounts(s: State, run: nat)
    ensures var t := Ask(s, run);
            forall other :: SentBy(t.sent, other) == SentBy(s.sent, other) + if other == run then 1 else 0
  {
    assert Init(Ask(s, run).sent) == s.sent;
  }

  lemma OpeningIsBudgeted(rows: set<nat>, s: State)
    requires Budgeted(rows, s)
    ensures Budgeted(rows, Step(s, ConnectionUp))
  {
    var u := s.(runs := s.runs + 1);
    NothingSentYet(s.sent, s.runs);
    SubsetSize(Above(rows, s.cursor), rows);
    assert Budgeted(rows, u);
    AskIsBudgeted(rows, u, s.runs);
  }

  /** A request more, for a run that has none on its way and can still afford one. */
  lemma AskIsBudgeted(rows: set<nat>, s: State, run: nat)
    requires Budgeted(rows, s) && run < s.runs
    requires forall i :: 0 <= i < |s.outstanding| ==> s.outstanding[i].run != run
    requires SentBy(s.sent, run) + |Above(rows, s.cursor)| <= |rows|
    ensures Budgeted(rows, Ask(s, run))
  {
    AskCounts(s, run);
    var t := Ask(s, run);
    forall i | 0 <= i < |t.outstanding|
      ensures var r := t.outstanding[i];
              r.run < t.runs && SentBy(t.sent, r.run) + |Above(rows, r.after)| <= |rows| + 1
    {
      if i < |s.outstanding| {
        assert t.outstanding[i] == s.outstanding[i];
      }
    }
  }

  lemma PageIsBudgeted(rows: set<nat>, s: State, k: nat, page: Page)
    requires Budgeted(rows, s) && k < |s.outstanding|
    requires Honest(rows, s.outstanding[k].after, page)
    ensures Budgeted(rows, OnPage(s, k, page))
  {
    var t, r := Answered(s, k), s.outstanding[k];
    assert Budgeted(rows, t);
    assert forall i :: 0 <= i < |t.outstanding| ==> t.outstanding[i].run != r.run;
    AbsorbAllFrame(t, page.messages);
    var last, u := LastId(page.messages), AbsorbAll(t, page.messages);
    if page.messages != [] && last.Some? && page.hasMore {
      LastIdOccurs(page.messages);
      AboveShrinks(rows, r.after, last.value);
      AskIsBudgeted(rows, u.(cursor := last), r.run);
    }
  }

  lemma StepIsBudgeted(rows: set<nat>, s: State, e: Event)
    requires Budgeted(rows, s) && HonestEvent(rows, s, e)
    ensures Budgeted(rows, Step(s, e))
  {
    if !IsCatchUp(e) {
      ChatFrame(s, e);
    } else if e.ConnectionUp? {
      OpeningIsBudgeted(rows, s);
    } else if e.PageArrives? && e.k < |s.outstanding| {
      PageIsBudgeted(rows, s, e.k, e.page);
    }
  }

  /**
   * Against a server that answers with stored messages above the cursor asked for, each catch-up
   * run ends: it sends at most one request more than there are messages, whatever the other runs
   * do to the shared cursor meanwhile.
   */
  lemma {:induction false} EveryRunEnds(rows: set<nat>, h: seq<Event>)
    requires HonestRun(rows, h)
    ensures Budgeted(rows, StateAfter(h))
    ensures forall run :: SentBy(StateAfter(h).sent, run) <= |rows| + 1
  {
    if h != [] {
      EveryRunEnds(rows, Init(h));
      StepIsBudgeted(rows, StateAfter(Init(h)), Last(h));
    }
  }

  // ---- the widget's closure -----------------------------------------------------------------------

  lemma {:induction false} LastIdSnoc(ms: seq<Entry>, m: Entry)
    ensures LastId(ms + [m]) == if m.id.Some? then m.id else LastId(ms)
  {
    assert Init(ms + [m]) == ms;
  }

  class ChatWidget {
    var msgs: seq<Bubble>
    var streaming: Option<Live>
    var seenContents: set<string>
    var reconcileCursor: Option<nat>
    ghost var outstanding: seq<Request>
    ghost var sent: seq<Request>
    ghost var runs: nat
    ghost var notes: seq<Note>

    ghost function View(): State
      reads this
    {
      State(msgs, streaming, seenContents, reconcileCursor, outstanding, sent, runs, notes)
    }

    constructor ()
      ensures View() == BLANK
    {
      msgs, streaming, seenContents, reconcileCursor := [], None, {}, None;
      outstanding, sent, runs, notes := [], [], 0, [];
    }

    method AppendMsg(role: Role, text: string)
      modifies this`msgs
      ensures View() == AddMsg(old(View()), role, text)
    {
      msgs := msgs + [Bubble(role, text)];
    }

    method RememberContent(text: string)
      modifies this`seenContents, this`notes
      ensures View() == Remember(old(View()), text)
    {
      if text != "" {
        seenContents, notes := seenContents + {text}, notes + [Remembered(text)];
      }
    }

    method SetText(at: nat, text: string)
      modifies this`msgs
      ensures View() == Paint(old(View()), at, text)
    {
      if at < |msgs| {
        msgs := msgs[at := msgs[at].(text := text)];
      }
    }

    method OnAiResponse(finalText: string)
      modifies this
      ensures View() == Step(old(View()), FrameFinal(finalText))
    {
      if finalText != "" {
        RememberContent(finalText);
        if streaming.Some? {
          SetText(streaming.value.bubble, finalText);
          streaming := None;
        } else {
          AppendMsg(Bot, finalText);
        }
      }
    }

    method OnAiResponseDelta(data: Payload)
      modifies this
      ensures View() == Step(old(View()), FrameDelta(data))
    {
      if data.Malformed? {
        return;
      }
      if streaming.None? {
        streaming := Some(Live(|msgs|, "", false));
        AppendMsg(Bot, "");
      }
      var l := streaming.value;
      if !l.done {
        if data.contentDelta != "" {
          l := l.(content := l.content + data.contentDelta);
        }
        if data.done {
          l := l.(done := true);
        }
        streaming := Some(l);
        assert l.content == old(if streaming.Some? then streaming.value.content else "") + data.contentDelta;
        SetText(l.bubble, if l.done then l.content else l.content + CURSOR_MARK);
      }
    }

    method CloseStreamingOnDisconnect(viaError: bool)
      modifies this
      ensures View() == Step(old(View()), ConnectionLost(viaError))
    {
      if streaming.None? {
        return;
      }
      var l := streaming.value;
      if l.content != "" {
        SetText(l.bubble, l.content);
        RememberContent(l.content);
        AppendMsg(System, INTERRUPTED);
      } else if l.bubble < |msgs| {
        msgs := msgs[..l.bubble] + msgs[l.bubble + 1..];
      }
      streaming := None;
    }

    method OnAgentMessage(content: string)
      modifies this
      ensures View() == Step(old(View()), FrameSpeech(content))
    {
      if content != "" {
        RememberContent(content);
        AppendMsg(Bot, content);
      }
    }

    method OnNotification(message: string)
      modifies this
      ensures View() == Step(old(View()), FrameNotice(message))
    {
      if message != "" {
        RememberContent(message);
        AppendMsg(System, message);
      }
    }

    method SendMsg(text: string)
      modifies this
      ensures View() == Step(old(View()), UserSends(text))
    {
      if text == "" {
        return;
      }
      AppendMsg(User, text);
      RememberContent(text);
    }

    /** Sends one request; `after` is the cursor put into its address. */
    method ReconcileMessages(ghost run: nat) returns (after: Option<nat>)
      modifies this`outstanding, this`sent
      ensures View() == Ask(old(View()), run) && after == reconcileCursor
    {
      after := reconcileCursor;
      outstanding := outstanding + [Request(run, after)];
      sent := sent + [Request(run, after)];
    }

    method OnConnected() returns (after: Option<nat>)
      modifies this
      ensures View() == Step(old(View()), ConnectionUp) && after == reconcileCursor
    {
      runs := runs + 1;
      after := ReconcileMessages(runs - 1);
    }

    /** What is done with each entry of a page. */
    method ShowUnlessSeen(m: Entry)
      modifies this`msgs, this`seenContents, this`notes
      ensures View() == Absorb(old(View()), m)
    {
      if m.content != "" && m.content !in seenContents && m.content !in INHERITED_NAMES {
        seenContents, notes := seenContents + {m.content}, notes + [Added(m.content)];
        AppendMsg(if m.sender == "system" then System else if m.sender == "customer" then User else Bot,
                  m.content);
      }
    }

    /** The continuation of request `k`, answered with a page; `more` is the follow-up request. */
    method OnReconcilePage(ghost k: nat, page: Page) returns (more: Option<Option<nat>>)
      requires k < |outstanding|
      modifies this
      ensures View() == Step(old(View()), PageArrives(k, page))
      ensures more == if page.hasMore && LastId(page.messages).Some?
                      then Some(LastId(page.messages)) else None
    {
      ghost var run := outstanding[k].run;
      outstanding := outstanding[..k] + outstanding[k + 1..];
      more := None;
      if page.messages == [] {
        return;
      }
      var last, i := None, 0;
      ghost var start := View();
      while i < |page.messages|
        invariant 0 <= i <= |page.messages|
        invariant last == LastId(page.messages[..i])
        invariant AbsorbAll(View(), page.messages[i..]) == AbsorbAll(start, page.messages)
        invariant outstanding == start.outstanding
      {
        var m := page.messages[i];
        assert page.messages[..i + 1] == page.messages[..i] + [m];
        LastIdSnoc(page.messages[..i], m);
        if m.id.Some? {
          last := m.id;
        }
        ShowUnlessSeen(m);
        i := i + 1;
      }
      assert page.messages[..i] == page.messages;
      if last.Some? {
        reconcileCursor := last;
        if page.hasMore {
          var after := ReconcileMessages(run);
          more := Some(after);
        }
      }
    }

    /** The continuation of request `k` when it failed: nothing but the request is gone. */
    method OnReconcileFailure(ghost k: nat)
      requires k < |outstanding|
      modifies this`outstanding
      ensures View() == Step(old(View()), PageFails(k))
    {
      outstanding := outstanding[..k] + outstanding[k + 1..];
    }
  }
}
