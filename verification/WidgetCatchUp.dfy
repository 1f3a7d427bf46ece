/**
 * The widget against the server it catches up from. Its runs may overlap and set the shared cursor
 * back and forth, yet below every cursor it ever held it was handed every message; whether it showed
 * each of them is another matter.
 */
module WidgetCatchUp {
  import opened Common
  import opened Widget
  import Text

  /**
   * A stored message; ids start at one. The store trims the text a message was sent with, a live frame
   * carries it as it is.
   */
  datatype Row = Row(id: nat, sender: string, content: string, sent: string)

  /** `taken` are the rows the widget was handed in a page. */
  datatype World = World(widget: State, table: seq<Row>, taken: set<Row>)

  /**
   * `Render` is a message's own way to the user: its live frame, or the visitor sending it. `Answer(k, n)`
   * delivers the answer to request `k`, computed when the table was `n` long.
   */
  datatype WorldEvent =
    | Store(row: Row)
    | Render(row: Row)
    | Answer(k: nat, n: nat)
    | Chat(event: Event)

  const NEW_WORLD := World(BLANK, [], {})
  const PAGE_LIMIT := 50

  // ---- the server -------------------------------------------------------------------------------

  function EntryOf(r: Row): Entry {
    Entry(Some(r.id), r.sender, r.content)
  }

  function Entries(rows: seq<Row>): (r: seq<Entry>)
    ensures |r| == |rows| && forall i :: 0 <= i < |rows| ==> r[i] == EntryOf(rows[i])
  {
    if rows == [] then [] else Entries(Init(rows)) + [EntryOf(Last(rows))]
  }

  predicate IsAbove(after: Option<nat>, id: nat) {
    after.None? || after.value < id
  }

  /** The first row above the cursor in an ascending table. */
  function FirstAbove(rows: seq<Row>, after: Option<nat>): (k: nat)
    ensures k <= |rows| && (k < |rows| ==> IsAbove(after, rows[k].id))
    ensures forall i :: 0 <= i < k ==> !IsAbove(after, rows[i].id)
    decreases |rows|
  {
    if rows == [] || IsAbove(after, rows[0].id) then 0 else 1 + FirstAbove(rows[1..], after)
  }

  function PageOf(rows: seq<Row>, after: Option<nat>): Page {
    var k := FirstAbove(rows, after);
    if |rows| - k > PAGE_LIMIT then Page(Entries(rows[k..k + PAGE_LIMIT]), true)
    else Page(Entries(rows[k..]), false)
  }

  function AnswerTo(w: World, k: nat, n: nat): Page
    requires k < |w.widget.outstanding| && n <= |w.table|
  {
    PageOf(w.table[..n], w.widget.outstanding[k].after)
  }

  // ---- one step -----------------------------------------------------------------------------------

  function LiveEvent(row: Row): Event {
    if row.sender == "customer" then UserSends(row.sent)
    else if row.sender == "agent" then FrameSpeech(row.sent)
    else if row.sender == "system" then FrameNotice(row.sent)
    else FrameFinal(row.sent)
  }

  predicate IsAnswered(w: World, e: WorldEvent) {
    e.Answer? && e.k < |w.widget.outstanding| && e.n <= |w.table|
  }

  /** The rows of the table that a page holds. */
  function RowsOf(table: seq<Row>, page: Page): set<Row> {
    set r | r in table && EntryOf(r) in page.messages
  }

  /** The widget is handed a page as the answer to request `k`. */
  function Handed(w: World, k: nat, page: Page): World {
    w.(widget := Widget.Step(w.widget, PageArrives(k, page)), taken := w.taken + RowsOf(w.table, page))
  }

  function WorldStep(w: World, e: WorldEvent): World {
    match e
    case Store(row) =>
      if 1 <= row.id && row.content == Text.Trim(row.sent, Text.IsGoSpace) &&
         (w.table == [] || Last(w.table).id < row.id)
      then w.(table := w.table + [row]) else w
    case Render(row) => w.(widget := Widget.Step(w.widget, LiveEvent(row)))
    case Answer(k, n) =>
      if IsAnswered(w, e) then Handed(w, k, AnswerTo(w, k, n)) else w
    case Chat(event) =>
      if event.PageArrives? then w else w.(widget := Widget.Step(w.widget, event))
  }

  function WorldAfter(h: seq<WorldEvent>): World {
    if h == [] then NEW_WORLD else WorldStep(WorldAfter(Init(h)), Last(h))
  }

  // ---- nothing below a cursor is passed over --------------------------------------------------------

  ghost predicate Ascending(rows: seq<Row>) {
    forall i, j :: 0 <= i < j < |rows| ==> rows[i].id < rows[j].id
  }

  /** The widget has the row's content: it showed it, or takes it for shown. */
  predicate Has(s: State, r: Row) {
    r.content == "" || Known(s, r.content)
  }

  /** Everything stored up to `a` was taken, and something is stored at or beyond `a`. */
  ghost predicate TakenUpTo(w: World, a: nat) {
    && w.table != [] && a <= Last(w.table).id
    && forall i :: 0 <= i < |w.table| && w.table[i].id <= a ==> w.table[i] in w.taken
  }

  ghost predicate Covered(w: World, after: Option<nat>) {
    after.Some? ==> TakenUpTo(w, after.value)
  }

  /** Below the cursor, and below what any request on its way asks for, everything was taken. */
  ghost predicate Complete(w: World) {
    && Ascending(w.table)
    && (forall r :: r in w.taken ==> r in w.table)
    && Covered(w, w.widget.cursor)
    && forall i :: 0 <= i < |w.widget.outstanding| ==> Covered(w, w.widget.outstanding[i].after)
  }

  /** What was taken up to a stored id stays so: only higher ids are stored later. */
  lemma StaysCovered(w: World, e: WorldEvent, after: Option<nat>)
    requires Covered(w, after)
    ensures Covered(WorldStep(w, e), after)
  {
    var t := WorldStep(w, e);
    assert w.taken <= t.taken && w.table <= t.table;
  }

  /** The page is the stretch of the table right above the cursor asked with. */
  lemma PageIsStretch(rows: seq<Row>, n: nat, after: Option<nat>) returns (k: nat, m: nat)
    requires Ascending(rows) && n <= |rows|
    ensures k <= m <= n && PageOf(rows[..n], after) == Page(Entries(rows[k..m]), m < n)
    ensures forall i :: 0 <= i < k ==> !IsAbove(after, rows[i].id)
  {
    var stored := rows[..n];
    k := FirstAbove(stored, after);
    if n - k > PAGE_LIMIT {
      m := k + PAGE_LIMIT;
      assert stored[k..m] == rows[k..m];
    } else {
      m := n;
      assert stored[k..] == rows[k..n];
    }
  }

  lemma LastOfEntries(rows: seq<Row>)
    requires rows != []
    ensures LastId(Entries(rows)) == Some(Last(rows).id)
  {
  }

  /** Rows before a stretch above the cursor were taken before, and those of the stretch are now. */
  lemma StretchIsTaken(w: World, r: nat, page: Page, k: nat, m: nat)
    requires Complete(w) && r < |w.widget.outstanding| && k <= m <= |w.table|
    requires page.messages == Entries(w.table[k..m])
    requires forall i :: 0 <= i < k ==> !IsAbove(w.widget.outstanding[r].after, w.table[i].id)
    ensures forall i :: 0 <= i < m ==> w.table[i] in w.taken + RowsOf(w.table, page)
  {
    forall i | 0 <= i < m
      ensures w.table[i] in w.taken + RowsOf(w.table, page)
    {
      if i >= k {
        assert page.messages[i - k] == EntryOf(w.table[k..m][i - k]);
      } else {
        assert !IsAbove(w.widget.outstanding[r].after, w.table[i].id);
      }
    }
  }

  /** The cursor is at the last of the rows, and any new request asks with it. */
  ghost predicate MovesTo(s: State, t: State, rows: seq<Row>) {
    && t.cursor == (if rows == [] then s.cursor else Some(Last(rows).id))
    && forall q :: q in t.outstanding ==> q in s.outstanding || q.after == t.cursor
  }

  /** What an answer leaves of the widget: its page absorbed, the cursor at its last message. */
  lemma AnswerMoves(s: State, r: nat, page: Page, rows: seq<Row>)
    requires r < |s.outstanding| && page.messages == Entries(rows)
    ensures MovesTo(s, Widget.Step(s, PageArrives(r, page)), rows)
  {
    AbsorbAllFrame(Answered(s, r), page.messages);
    if rows != [] {
      LastOfEntries(rows);
    }
  }

  /** The world after a page whose rows end before row `m`. */
  ghost predicate LeavesTaken(w: World, t: World, m: nat)
    requires m <= |w.table|
  {
    && (forall i :: 0 <= i < m ==> w.table[i] in t.taken)
    && (t.widget.cursor == w.widget.cursor || (m > 0 && t.widget.cursor == Some(w.table[m - 1].id)))
    && forall q :: q in t.widget.outstanding ==> q in w.widget.outstanding || q.after == t.widget.cursor
  }

  lemma MovedIsTaken(w: World, t: World, k: nat, m: nat)
    requires k <= m <= |w.table| && MovesTo(w.widget, t.widget, w.table[k..m])
    requires forall i :: 0 <= i < m ==> w.table[i] in t.taken
    ensures LeavesTaken(w, t, m)
  {
    assert k < m ==> Last(w.table[k..m]) == w.table[m - 1];
  }

  lemma PageLeaves(w: World, r: nat, page: Page, k: nat, m: nat)
    requires Complete(w) && r < |w.widget.outstanding| && k <= m <= |w.table|
    requires page.messages == Entries(w.table[k..m])
    requires forall i :: 0 <= i < k ==> !IsAbove(w.widget.outstanding[r].after, w.table[i].id)
    ensures LeavesTaken(w, Handed(w, r, page), m)
  {
    StretchIsTaken(w, r, page, k, m);
    AnswerMoves(w.widget, r, page, w.table[k..m]);
    MovedIsTaken(w, Handed(w, r, page), k, m);
  }

  lemma AnswerLeaves(w: World, r: nat, n: nat, page: Page) returns (m: nat)
    requires Complete(w) && r < |w.widget.outstanding| && n <= |w.table| && page == AnswerTo(w, r, n)
    ensures m <= n && page.hasMore == (m < n)
    ensures LeavesTaken(w, Handed(w, r, page), m)
  {
    var k: nat;
    k, m := PageIsStretch(w.table, n, w.widget.outstanding[r].after);
    PageLeaves(w, r, page, k, m);
  }

  lemma TakenUpToRow(w: World, m: nat)
    requires Ascending(w.table) && 0 < m <= |w.table|
    requires forall i :: 0 <= i < m ==> w.table[i] in w.taken
    ensures TakenUpTo(w, w.table[m - 1].id)
  {
  }

  lemma HandedStaysCovered(w: World, r: nat, page: Page, after: Option<nat>)
    requires Covered(w, after)
    ensures Covered(Handed(w, r, page), after)
  {
  }

  lemma AnswerKeepsComplete(w: World, r: nat, n: nat, page: Page)
    requires Complete(w) && r < |w.widget.outstanding| && n <= |w.table| && page == AnswerTo(w, r, n)
    ensures Complete(Handed(w, r, page))
  {
    var s, t := w.widget, Handed(w, r, page);
    var m := AnswerLeaves(w, r, n, page);
    HandedStaysCovered(w, r, page, s.cursor);
    if m > 0 {
      TakenUpToRow(t, m);
    }
    forall i | 0 <= i < |t.widget.outstanding|
      ensures Covered(t, t.widget.outstanding[i].after)
    {
      var q := t.widget.outstanding[i];
      if q in s.outstanding {
        HandedStaysCovered(w, r, page, q.after);
      }
    }
  }

  /** Events that answer nothing ask with the cursor, or do not ask. */
  lemma OthersAskWithCursor(w: World, e: WorldEvent)
    requires !IsAnswered(w, e)
    ensures var t := WorldStep(w, e);
            && t.widget.cursor == w.widget.cursor
            && forall q :: q in t.widget.outstanding ==> q in w.widget.outstanding || q.after == w.widget.cursor
  {
    if e.Chat? && !IsCatchUp(e.event) {
      ChatFrame(w.widget, e.event);
    } else if e.Render? {
      ChatFrame(w.widget, LiveEvent(e.row));
    }
  }

  lemma OthersKeepComplete(w: World, e: WorldEvent, t: World)
    requires Complete(w) && !IsAnswered(w, e) && t == WorldStep(w, e)
    ensures Complete(t)
  {
    OthersAskWithCursor(w, e);
    StaysCovered(w, e, w.widget.cursor);
    forall i | 0 <= i < |t.widget.outstanding|
      ensures Covered(t, t.widget.outstanding[i].after)
    {
      var q := t.widget.outstanding[i];
      if q in w.widget.outstanding {
        StaysCovered(w, e, q.after);
      }
    }
  }

  lemma StepKeepsComplete(w: World, e: WorldEvent)
    requires Complete(w)
    ensures Complete(WorldStep(w, e))
  {
    if IsAnswered(w, e) {
      AnswerKeepsComplete(w, e.k, e.n, AnswerTo(w, e.k, e.n));
    } else {
      OthersKeepComplete(w, e, WorldStep(w, e));
    }
  }

  lemma {:induction false} AlwaysComplete(h: seq<WorldEvent>)
    ensures Complete(WorldAfter(h))
  {
    if h != [] {
      AlwaysComplete(Init(h));
      StepKeepsComplete(WorldAfter(Init(h)), Last(h));
    }
  }

  // ---- a whole run of catch-up --------------------------------------------------------------------------

  /** The cursor stands between the first `m` rows and the others. */
  predicate SplitAt(rows: seq<Row>, cursor: Option<nat>, m: nat)
    requires m <= |rows|
  {
    && (forall i :: 0 <= i < m ==> !IsAbove(cursor, rows[i].id))
    && (forall i :: m <= i < |rows| ==> IsAbove(cursor, rows[i].id))
  }

  predicate AllTaken(rows: seq<Row>, taken: set<Row>, m: nat)
    requires m <= |rows|
  {
    forall i :: 0 <= i < m ==> rows[i] in taken
  }

  /** The first `m` rows were taken, and the cursor stands there. */
  ghost predicate AtRow(w: World, m: nat) {
    && Ascending(w.table) && m <= |w.table|
    && AllTaken(w.table, w.taken, m) && SplitAt(w.table, w.widget.cursor, m)
  }

  /** One request is on its way, with the cursor as it is, or none. */
  predicate Asks(w: World, one: bool) {
    if one then |w.widget.outstanding| == 1 && w.widget.outstanding[0].after == w.widget.cursor
    else w.widget.outstanding == []
  }

  function Min(a: nat, b: nat): nat {
    if a <= b then a else b
  }

  /** The answer to a request that starts at row `q`. */
  lemma NextFifty(rows: seq<Row>, after: Option<nat>, q: nat)
    requires q <= |rows| && SplitAt(rows, after, q)
    ensures var m := Min(q + 50, |rows|);
            q <= m && PageOf(rows, after) == Page(Entries(rows[q..m]), m < |rows|)
  {
    var k := FirstAbove(rows, after);
    assert k < |rows| ==> IsAbove(after, rows[k].id);
    assert q < |rows| ==> IsAbove(after, rows[q].id);
    assert k == q;
    assert rows[q..] == rows[q..|rows|];
  }

  /** The widget after a page that is the only one awaited. */
  lemma OnlyPage(s: State, page: Page, rows: seq<Row>)
    requires |s.outstanding| == 1 && page.messages == Entries(rows)
    ensures var t := Widget.Step(s, PageArrives(0, page));
            && t.cursor == (if rows == [] then s.cursor else Some(Last(rows).id))
            && (if rows != [] && page.hasMore
                then |t.outstanding| == 1 && t.outstanding[0].after == t.cursor else t.outstanding == [])
  {
    AbsorbAllFrame(Answered(s, 0), page.messages);
    if rows != [] {
      LastOfEntries(rows);
    }
  }

  lemma PageIsTaken(rows: seq<Row>, taken: set<Row>, q: nat, m: nat, page: Page)
    requires q <= m <= |rows| && AllTaken(rows, taken, q) && page.messages == Entries(rows[q..m])
    ensures AllTaken(rows, taken + RowsOf(rows, page), m)
  {
    forall i | q <= i < m
      ensures rows[i] in RowsOf(rows, page)
    {
      assert page.messages[i - q] == EntryOf(rows[q..m][i - q]);
    }
  }

  lemma CursorAtRow(rows: seq<Row>, m: nat)
    requires Ascending(rows) && 0 < m <= |rows|
    ensures SplitAt(rows, Some(rows[m - 1].id), m)
  {
  }

  lemma OneAnswer(w: World, q: nat, page: Page)
    requires AtRow(w, q) && Asks(w, true) && page == AnswerTo(w, 0, |w.table|)
    ensures var t, m := Handed(w, 0, page), Min(q + 50, |w.table|);
            t.table == w.table && AtRow(t, m) && Asks(t, m < |w.table|)
  {
    assert w.table[..|w.table|] == w.table;
    NextFifty(w.table, w.widget.cursor, q);
    OnePage(w, q, Min(q + 50, |w.table|), page);
  }

  lemma OnePage(w: World, q: nat, m: nat, page: Page)
    requires AtRow(w, q) && Asks(w, true) && q <= m <= |w.table|
    requires page.messages == Entries(w.table[q..m]) && page.hasMore == (m < |w.table|) && (q == m ==> m == |w.table|)
    ensures var t := Handed(w, 0, page);
            t.table == w.table && AtRow(t, m) && Asks(t, m < |w.table|)
  {
    var rows := w.table[q..m];
    OnlyPage(w.widget, page, rows);
    PageIsTaken(w.table, w.taken, q, m, page);
    if q < m {
      assert Last(rows) == w.table[m - 1];
      CursorAtRow(w.table, m);
    }
  }

  /** `n` answers in a row, each with the whole table in sight. */
  function Answers(size: nat, n: nat): seq<WorldEvent> {
    if n == 0 then [] else Answers(size, n - 1) + [Answer(0, size)]
  }

  /** Where the widget is after `n` answers to a run that began at row `q`. */
  ghost predicate IsAfterAnswers(table: seq<Row>, t: World, q: nat, n: nat) {
    var m := Min(q + 50 * n, |table|);
    t.table == table && AtRow(t, m) && Asks(t, n == 0 || m < |table|)
  }

  lemma OneAnswerMore(table: seq<Row>, t: World, q: nat, n: nat)
    requires IsAfterAnswers(table, t, q, n) && q <= |table|
    ensures IsAfterAnswers(table, WorldStep(t, Answer(0, |table|)), q, n + 1)
  {
    var m := Min(q + 50 * n, |table|);
    if n == 0 || m < |table| {
      OneAnswer(t, m, AnswerTo(t, 0, |table|));
    }
  }

  lemma {:induction false} AfterAnswers(h: seq<WorldEvent>, q: nat, n: nat)
    requires IsAfterAnswers(WorldAfter(h).table, WorldAfter(h), q, 0) && q <= |WorldAfter(h).table|
    ensures var w := WorldAfter(h);
            IsAfterAnswers(w.table, WorldAfter(h + Answers(|w.table|, n)), q, n)
  {
    var size := |WorldAfter(h).table|;
    if n == 0 {
      assert h + Answers(size, 0) == h;
    } else {
      var g := h + Answers(size, n - 1);
      AfterAnswers(h, q, n - 1);
      assert h + Answers(size, n) == g + [Answer(0, size)];
      assert Init(g + [Answer(0, size)]) == g;
      OneAnswerMore(WorldAfter(h).table, WorldAfter(g), q, n - 1);
    }
  }

  lemma AboveFromThere(rows: seq<Row>, after: Option<nat>)
    requires Ascending(rows)
    ensures forall i :: FirstAbove(rows, after) <= i < |rows| ==> IsAbove(after, rows[i].id)
  {
    var q := FirstAbove(rows, after);
    assert forall i :: q <= i < |rows| ==> rows[q].id <= rows[i].id;
  }

  /** The rows up to the cursor were taken. */
  lemma UpToCursor(w: World, q: nat)
    requires Complete(w) && q == FirstAbove(w.table, w.widget.cursor)
    ensures AtRow(w, q)
  {
    AboveFromThere(w.table, w.widget.cursor);
    forall i | 0 <= i < q
      ensures w.table[i] in w.taken
    {
      assert !IsAbove(w.widget.cursor, w.table[i].id);
    }
  }

  /** A connect asks for those above it. */
  lemma ConnectAsks(w: World, q: nat)
    requires AtRow(w, q) && w.widget.outstanding == []
    ensures var t := WorldStep(w, Chat(ConnectionUp));
            t.table == w.table && AtRow(t, q) && Asks(t, true)
  {
  }

  /**
   * A connect with no request on its way, and enough answers, one for every fifty messages above the
   * cursor and one at least: then every message of the table was handed over, and nothing is asked any
   * more.
   */
  lemma ConnectCatchesUp(h: seq<WorldEvent>, n: nat)
    requires WorldAfter(h).widget.outstanding == [] && n >= 1
    requires |WorldAfter(h).table| - FirstAbove(WorldAfter(h).table, WorldAfter(h).widget.cursor) <= 50 * n
    ensures var w := WorldAfter(h);
            var t := WorldAfter(h + [Chat(ConnectionUp)] + Answers(|w.table|, n));
            && t.table == w.table && t.widget.outstanding == []
            && forall r :: r in w.table ==> r in t.taken && Has(t.widget, r)
  {
    var w, up := WorldAfter(h), h + [Chat(ConnectionUp)];
    assert Init(up) == h;
    AlwaysComplete(h);
    var q := FirstAbove(w.table, w.widget.cursor);
    UpToCursor(w, q);
    ConnectAsks(w, q);
    AfterAnswers(up, q, n);
    AlwaysKnown(up + Answers(|w.table|, n));
  }

  // ---- what was taken is known ------------------------------------------------------------------------

  lemma StepRemembers(s: State, e: Event)
    ensures s.seen <= Widget.Step(s, e).seen
  {
    if e.PageArrives? && e.k < |s.outstanding| {
      PageIsAbsorbed(Answered(s, e.k), e.page.messages);
      AbsorbAllFrame(Answered(s, e.k), e.page.messages);
    }
  }

  ghost predicate TakenIsKnown(w: World) {
    forall r :: r in w.taken ==> Has(w.widget, r)
  }

  lemma PageKeepsKnown(w: World, r: nat, page: Page)
    requires TakenIsKnown(w) && r < |w.widget.outstanding|
    ensures TakenIsKnown(Handed(w, r, page))
  {
    var s, t := Answered(w.widget, r), Handed(w, r, page);
    PageIsAbsorbed(s, page.messages);
    AbsorbAllFrame(s, page.messages);
    forall row | row in t.taken
      ensures Has(t.widget, row)
    {
      if row !in w.taken {
        var i :| 0 <= i < |page.messages| && page.messages[i] == EntryOf(row);
      }
    }
  }

  lemma {:induction false} AlwaysKnown(h: seq<WorldEvent>)
    ensures TakenIsKnown(WorldAfter(h))
  {
    if h != [] {
      var w, e := WorldAfter(Init(h)), Last(h);
      AlwaysKnown(Init(h));
      if IsAnswered(w, e) {
        PageKeepsKnown(w, e.k, AnswerTo(w, e.k, e.n));
      } else if e.Render? {
        StepRemembers(w.widget, LiveEvent(e.row));
      } else if e.Chat? {
        StepRemembers(w.widget, e.event);
      }
    }
  }

  /**
   * However the runs overlap, every message stored at or below any cursor the widget held at any point
   * of the run was handed to it, and is known to it for ever after.
   */
  lemma {:induction false} NothingBelowACursorIsMissing(h: seq<WorldEvent>, g: seq<WorldEvent>)
    ensures Covered(WorldAfter(h + g), WorldAfter(h).widget.cursor) && TakenIsKnown(WorldAfter(h + g))
    decreases |g|
  {
    AlwaysKnown(h + g);
    if g == [] {
      AlwaysComplete(h);
      assert h + g == h;
    } else {
      NothingBelowACursorIsMissing(h, Init(g));
      AppendInit(h, g);
      assert Init(h + g) == h + Init(g);
      StaysCovered(WorldAfter(h + Init(g)), Last(g), WorldAfter(h).widget.cursor);
    }
  }

  /** A run that ends because nothing more is reported leaves all the server had at its answer taken. */
  lemma FinishedRunKnowsAll(h: seq<WorldEvent>, r: nat, n: nat)
    requires r < |WorldAfter(h).widget.outstanding| && n <= |WorldAfter(h).table|
    requires !AnswerTo(WorldAfter(h), r, n).hasMore
    ensures var w := WorldAfter(h + [Answer(r, n)]);
            n <= |w.table| && (forall i :: 0 <= i < n ==> w.table[i] in w.taken && Has(w.widget, w.table[i]))
  {
    hide Complete, Has, Widget.Step, PageOf;
    assert Init(h + [Answer(r, n)]) == h;
    AlwaysComplete(h);
    AlwaysKnown(h + [Answer(r, n)]);
    var m := AnswerLeaves(WorldAfter(h), r, n, AnswerTo(WorldAfter(h), r, n));
  }

  // ---- how often a message is shown -------------------------------------------------------------------

  /** How often a message was rendered on its own way; an empty text is not. */
  function Renders(h: seq<WorldEvent>, row: Row): nat {
    if h == [] then 0
    else Renders(Init(h), row) + if Last(h) == Render(row) && row.sent != "" then 1 else 0
  }

  /** How often a page adds an entry. */
  function Adds(s: State, ms: seq<Entry>, m: Entry): nat
    decreases |ms|
  {
    if ms == [] then 0
    else (if ms[0] == m && m.content != "" && !Known(s, m.content) then 1 else 0) + Adds(Absorb(s, ms[0]), ms[1..], m)
  }

  /** The widget when the turn of an entry comes. */
  function AtTurn(s: State, ms: seq<Entry>, m: Entry): State
    decreases |ms|
  {
    if ms == [] || ms[0] == m then s else AtTurn(Absorb(s, ms[0]), ms[1..], m)
  }

  predicate Takes(w: World, e: WorldEvent, row: Row) {
    IsAnswered(w, e) && row in RowsOf(w.table, AnswerTo(w, e.k, e.n))
  }

  function StepAdds(w: World, e: WorldEvent, row: Row): nat {
    if Takes(w, e, row) then Adds(Answered(w.widget, e.k), AnswerTo(w, e.k, e.n).messages, EntryOf(row)) else 0
  }

  /** How often catch-up added a message. */
  function Additions(h: seq<WorldEvent>, row: Row): nat {
    if h == [] then 0 else Additions(Init(h), row) + StepAdds(WorldAfter(Init(h)), Last(h), row)
  }

  function Showings(h: seq<WorldEvent>, row: Row): nat {
    Renders(h, row) + Additions(h, row)
  }

  /** How a sender's messages look: the visitor's own, system notices, and all others. */
  predicate Wears(sender: string, role: Role) {
    role == if sender == "customer" then User else if sender == "system" then System else Bot
  }

  predicate IsShownAs(bubbles: seq<Bubble>, sender: string, text: string) {
    exists b :: b in bubbles && b.text == text && Wears(sender, b.role)
  }

  /** A message's own way ends in a bubble of its sender with its text, which the widget remembers. */
  lemma RenderShows(h: seq<WorldEvent>, row: Row)
    requires row.sent != ""
    ensures var t := WorldAfter(h + [Render(row)]).widget;
            IsShownAs(t.msgs, row.sender, row.sent) && row.sent in t.seen
  {
    assert Init(h + [Render(row)]) == h;
    var w := WorldAfter(h).widget;
    var t := Widget.Step(w, LiveEvent(row));
    var g := WidgetRun(h);
    BubbleStaysInPlace(g);
    if LiveEvent(row).FrameFinal? && w.streaming.Some? {
      assert t.msgs[w.streaming.value.bubble].text == row.sent;
      assert t.msgs[w.streaming.value.bubble] in t.msgs;
    } else {
      assert t.msgs[|w.msgs|].text == row.sent;
      assert t.msgs[|w.msgs|] in t.msgs;
    }
  }

  /** Only an AI's message, the final frame of its answer, ends the streaming of one. */
  lemma OnlyAnswersEndStreams(h: seq<WorldEvent>, row: Row)
    requires row.sent != ""
    ensures WorldAfter(h + [Render(row)]).widget.streaming
            == if row.sender in ["customer", "agent", "system"] then WorldAfter(h).widget.streaming else None
  {
    assert Init(h + [Render(row)]) == h;
  }

  /** The widget's own view of a run of widget and server. */
  lemma {:induction false} WidgetRun(h: seq<WorldEvent>) returns (g: seq<Event>)
    ensures WorldAfter(h).widget == Widget.StateAfter(g)
  {
    g := [];
    if h != [] {
      g := WidgetRun(Init(h));
      var w, e := WorldAfter(Init(h)), Last(h);
      if WorldAfter(h).widget != w.widget {
        var event := if e.Render? then LiveEvent(e.row) else if e.Chat? then e.event
                     else PageArrives(e.k, AnswerTo(w, e.k, e.n));
        assert Init(g + [event]) == g;
        g := g + [event];
      }
    }
  }

  /** An addition is a bubble of the message's sender with its text, as on its own way. */
  lemma {:induction false} AdditionShows(s: State, ms: seq<Entry>, m: Entry)
    requires Adds(s, ms, m) > 0
    ensures IsShownAs(Novel(s, ms), m.sender, m.content)
    decreases |ms|
  {
    var u, rest := Absorb(s, ms[0]), Novel(Absorb(s, ms[0]), ms[1..]);
    if ms[0] == m && m.content != "" && !Known(s, m.content) {
      assert Novel(s, ms)[0].text == m.content && Novel(s, ms)[0] in Novel(s, ms);
    } else {
      AdditionShows(u, ms[1..], m);
      var b :| b in rest && b.text == m.content && Wears(m.sender, b.role);
      assert b in Novel(s, ms);
    }
  }

  lemma {:induction false} KnownAddsNothing(s: State, ms: seq<Entry>, m: Entry)
    requires m.content == "" || Known(s, m.content) || m !in ms
    ensures Adds(s, ms, m) == 0
    decreases |ms|
  {
    if ms != [] {
      KnownAddsNothing(Absorb(s, ms[0]), ms[1..], m);
    }
  }

  /** A page adds an entry once, unless its content is known when its turn comes. */
  lemma {:induction false} AddsAtTurn(s: State, ms: seq<Entry>, m: Entry)
    requires m in ms
    ensures Adds(s, ms, m) ==
            if m.content == "" || Known(AtTurn(s, ms, m), m.content) then 0 else 1
    decreases |ms|
  {
    var u := Absorb(s, ms[0]);
    if ms[0] == m {
      KnownAddsNothing(u, ms[1..], m);
    } else {
      AddsAtTurn(u, ms[1..], m);
    }
  }

  /** What was known before the page is known at the turn. */
  lemma {:induction false} KnownAtTurn(s: State, ms: seq<Entry>, m: Entry)
    ensures s.seen <= AtTurn(s, ms, m).seen
    decreases |ms|
  {
    if ms != [] && ms[0] != m {
      KnownAtTurn(Absorb(s, ms[0]), ms[1..], m);
    }
  }

  /** Step `d` is the first to hand the row to the widget. */
  predicate FirstTakenAt(h: seq<WorldEvent>, d: nat, row: Row) {
    && d < |h| && Takes(WorldAfter(h[..d]), h[d], row)
    && row !in WorldAfter(h[..d]).taken
  }

  /** The widget at that step, when the row's turn comes. */
  function TurnAt(h: seq<WorldEvent>, d: nat, row: Row): State
    requires d < |h| && Takes(WorldAfter(h[..d]), h[d], row)
  {
    var w := WorldAfter(h[..d]);
    AtTurn(Answered(w.widget, h[d].k), AnswerTo(w, h[d].k, h[d].n).messages, EntryOf(row))
  }

  /** A row taken before is added no more. */
  lemma TakenAddsNothing(w: World, e: WorldEvent, row: Row)
    requires TakenIsKnown(w) && row in w.taken
    ensures StepAdds(w, e, row) == 0
  {
    if Takes(w, e, row) {
      KnownAddsNothing(Answered(w.widget, e.k), AnswerTo(w, e.k, e.n).messages, EntryOf(row));
    }
  }

  lemma {:induction false} UntakenIsNotAdded(h: seq<WorldEvent>, row: Row)
    requires row !in WorldAfter(h).taken
    ensures Additions(h, row) == 0
  {
    if h != [] {
      UntakenIsNotAdded(Init(h), row);
    }
  }

  /**
   * What the widget is handed it shows at most once, at the first page that holds it, and exactly if
   * its content is not known when its turn comes there.
   */
  lemma {:induction false} AddedOnce(h: seq<WorldEvent>, row: Row) returns (d: nat)
    requires row in WorldAfter(h).taken
    ensures FirstTakenAt(h, d, row)
    ensures Additions(h, row) == if Has(TurnAt(h, d, row), row) then 0 else 1
  {
    var g, e := Init(h), Last(h);
    var w := WorldAfter(g);
    AlwaysKnown(g);
    if row in w.taken {
      d := AddedOnce(g, row);
      TakenAddsNothing(w, e, row);
      assert h[..d] == g[..d] && h[d] == g[d];
    } else {
      d := |g|;
      assert h[..d] == g;
      UntakenIsNotAdded(g, row);
      AddsAtTurn(Answered(w.widget, e.k), AnswerTo(w, e.k, e.n).messages, EntryOf(row));
    }
  }

  /**
   * A message at or below any cursor held is never shown if and only if it was not rendered on its own
   * way and its content was known when its turn came in the first page that held it. It is shown more
   * than once if and only if it was rendered more than once, or rendered and unknown then.
   */
  lemma LostOrRepeated(h: seq<WorldEvent>, g: seq<WorldEvent>, row: Row) returns (d: nat)
    requires row in WorldAfter(h + g).table
    requires WorldAfter(h).widget.cursor.Some? && row.id <= WorldAfter(h).widget.cursor.value
    ensures FirstTakenAt(h + g, d, row)
    ensures var f := h + g;
            var known := Has(TurnAt(f, d, row), row);
            && Showings(f, row) == Renders(f, row) + (if known then 0 else 1)
            && (Showings(f, row) == 0 <==> Renders(f, row) == 0 && known)
            && (Showings(f, row) > 1 <==> Renders(f, row) > 1 || (Renders(f, row) == 1 && !known))
  {
    NothingBelowACursorIsMissing(h, g);
    d := AddedOnce(h + g, row);
  }

  // ---- two runs -----------------------------------------------------------------------------------------

  lemma WorldSnoc(h: seq<WorldEvent>, e: WorldEvent, row: Row)
    ensures WorldAfter(h + [e]) == WorldStep(WorldAfter(h), e)
    ensures Renders(h + [e], row) == Renders(h, row) + if e == Render(row) && row.sent != "" then 1 else 0
    ensures Additions(h + [e], row) == Additions(h, row) + StepAdds(WorldAfter(h), e, row)
  {
    assert Init(h + [e]) == h;
  }

  predicate Storable(row: Row) {
    1 <= row.id && row.content != "" && row.content == Text.Trim(row.sent, Text.IsGoSpace)
  }

  /** A connect and its answer, from a table of one row. */
  lemma CatchesUp(h: seq<WorldEvent>, row: Row) returns (g: seq<WorldEvent>)
    requires var w := WorldAfter(h);
             w.table == [row] && w.widget.outstanding == [] && w.widget.cursor == None
    ensures g == h + [Chat(ConnectionUp)] + [Answer(0, 1)]
    ensures WorldAfter(g).widget.cursor == Some(row.id) && WorldAfter(g).table == [row]
    ensures Renders(g, row) == Renders(h, row)
    ensures Additions(g, row) == Additions(h, row) + if Has(WorldAfter(h).widget, row) then 0 else 1
  {
    var up, answer := Chat(ConnectionUp), Answer(0, 1);
    WorldSnoc(h, up, row);
    WorldSnoc(h + [up], answer, row);
    g := h + [up] + [answer];
    ConnectsAlone(WorldAfter(h));
    OneIsAnswered(WorldAfter(h + [up]), row);
  }

  lemma ConnectsAlone(w: World)
    requires w.widget.outstanding == [] && w.widget.cursor == None
    ensures var t := WorldStep(w, Chat(ConnectionUp));
            && t.table == w.table && t.widget.seen == w.widget.seen
            && |t.widget.outstanding| == 1 && t.widget.outstanding[0].after == None
  {
  }

  /** The one row of the table is the answer. */
  lemma OneIsAnswered(w: World, row: Row)
    requires w.table == [row] && |w.widget.outstanding| == 1 && w.widget.outstanding[0].after == None
    ensures var t := WorldStep(w, Answer(0, 1));
            && t.widget.cursor == Some(row.id) && t.table == [row] && t.widget.outstanding == []
            && StepAdds(w, Answer(0, 1), row) == if Has(w.widget, row) then 0 else 1
  {
    var s, ms := Answered(w.widget, 0), [EntryOf(row)];
    assert w.table[..1] == [row];
    PageOfOne(row);
    assert EntryOf(row) in ms;
    AddsAtTurn(s, ms, EntryOf(row));
    AbsorbAllFrame(s, ms);
  }

  lemma PageOfOne(row: Row)
    ensures PageOf([row], None) == Page([EntryOf(row)], false)
    ensures LastId([EntryOf(row)]) == Some(row.id)
  {
    assert [row][0..] == [row] && Init([row]) == [];
    assert Entries([row]) == Entries([]) + [EntryOf(row)] == [EntryOf(row)];
  }

  /** One message rendered on its own way, another stored. */
  lemma RenderedThenStored(first: Row, row: Row) returns (h: seq<WorldEvent>)
    requires first != row && Storable(row) && first.sent != ""
    ensures Renders(h, row) == 0 && Additions(h, row) == 0 && WorldAfter(h).table == [row]
    ensures var s := WorldAfter(h).widget;
            s.outstanding == [] && s.cursor == None && first.sent in s.seen
  {
    RenderShows([], first);
    ChatFrame(BLANK, LiveEvent(first));
    WorldSnoc([], Render(first), row);
    var g := [] + [Render(first)];
    assert WorldAfter(g).table == [];
    WorldSnoc(g, Store(row), row);
    h := g + [Store(row)];
  }

  /** Of any two messages with one text the second is lost when it does not come its own way. */
  lemma EqualTextIsLost(first: Row, row: Row) returns (h: seq<WorldEvent>)
    requires first != row && Storable(row) && first.sent == row.content
    ensures WorldAfter(h).table == [row] && WorldAfter(h).widget.cursor == Some(row.id) && Showings(h, row) == 0
  {
    h := RenderedThenStored(first, row);
    h := CatchesUp(h, row);
  }

  /** A message caught up with before its frame comes is shown again by the frame. */
  lemma FrameComesLate(row: Row) returns (h: seq<WorldEvent>)
    requires Storable(row) && row.content !in INHERITED_NAMES
    ensures WorldAfter(h).table == [row] && WorldAfter(h).widget.cursor == Some(row.id)
    ensures Renders(h, row) == 1 && Showings(h, row) == 2
  {
    var g := StoredAndTaken(row);
    assert row.sent != "" by {
      assert Text.Trim("", Text.IsGoSpace) == "";
    }
    WorldSnoc(g, Render(row), row);
    ChatFrame(WorldAfter(g).widget, LiveEvent(row));
    h := g + [Render(row)];
  }

  lemma StoredAndTaken(row: Row) returns (h: seq<WorldEvent>)
    requires Storable(row) && row.content !in INHERITED_NAMES
    ensures WorldAfter(h).table == [row] && WorldAfter(h).widget.cursor == Some(row.id)
    ensures Renders(h, row) == 0 && Additions(h, row) == 1
  {
    WorldSnoc([], Store(row), row);
    h := CatchesUp([] + [Store(row)], row);
  }
}
