/**
 * The session against the server it catches up from: a table of messages that only grows, read
 * page by page above the cursor, with answers that may be out of date when they arrive.
 */
module CatchUp {
  import opened Common
  import opened Session
  import Text

  /**
   * A stored message, what the endpoint sends for it, and the text it was sent with: the store trims
   * that, the live frame carries it as it is.
   */
  datatype Row = Row(id: nat, dto: Dto, sent: string)

  /** An answer on its way, as long as the table was when it was computed. */
  datatype Answer = NoAnswer | RequestFailed | Snapshot(n: nat)

  datatype World = World(client: State, table: seq<Row>, answer: Answer)

  /** `Broadcast` is the live frame of a message, which may come before or after it is stored. */
  datatype WorldEvent =
    | Append(row: Row)
    | Broadcast(row: Row)
    | ServerAnswers
    | ConnectionFails
    | Deliver
    | Client(event: Event)

  const NEW_WORLD := World(Session.START, [], NoAnswer)

  // ---- the server -------------------------------------------------------------------------------

  /** An entry the client can read reads as the row's own id and the trimmed text. */
  predicate Coherent(r: Row) {
    var p := ParseVisitorMessage(r.dto);
    1 <= r.id && (p.None? || (p.value.numericId == r.id && p.value.content == Text.Trim(r.sent, Text.IsGoSpace)))
  }

  predicate Ascending(rows: seq<Row>) {
    forall i, j :: 0 <= i < j < |rows| ==> rows[i].id < rows[j].id
  }

  /** The cursor as the query uses it: no cursor reads from the beginning. */
  function After(cursor: Option<int>): int {
    if cursor.None? then 0 else cursor.value
  }

  function Above(rows: seq<Row>, after: int): seq<Row> {
    if rows == [] then []
    else if Last(rows).id > after then Above(Init(rows), after) + [Last(rows)]
    else Above(Init(rows), after)
  }

  function Dtos(rows: seq<Row>): seq<Dto> {
    if rows == [] then [] else [rows[0].dto] + Dtos(rows[1..])
  }

  /** One page: at most `PAGE_LIMIT` rows above the cursor; one row more is probed for `hasMore`. */
  function PageOf(rows: seq<Row>, cursor: Option<int>): PageResult {
    var found := Above(rows, After(cursor));
    if |found| > PAGE_LIMIT then Page(Dtos(found[..PAGE_LIMIT]), true) else Page(Dtos(found), false)
  }

  // ---- one step of client and server --------------------------------------------------------------

  function WorldStep(w: World, e: WorldEvent): World {
    match e
    case Append(row) =>
      if Coherent(row) && (w.table == [] || Last(w.table).id < row.id)
      then w.(table := w.table + [row]) else w
    case Broadcast(row) =>
      var p := ParseVisitorMessage(row.dto);
      if p.None? then w else w.(client := Session.Step(w.client, FrameOf(p.value.sender, row.sent)))
    case ServerAnswers =>
      if w.client.outstanding != [] && w.answer.NoAnswer? then w.(answer := Snapshot(|w.table|)) else w
    case ConnectionFails =>
      if w.client.outstanding != [] && w.answer.NoAnswer? then w.(answer := RequestFailed) else w
    case Deliver =>
      if w.answer.NoAnswer? then w
      else w.(client := Session.Step(w.client, PageArrives(0, Delivered(w))), answer := NoAnswer)
    case Client(event) =>
      if event.PageArrives? then w else w.(client := Session.Step(w.client, event))
  }

  /** The live frame that carries a message. */
  function FrameOf(sender: string, sent: string): Event {
    Incoming(SenderTypeOf(sender), sender == "ai", sent)
  }

  /** The sender as the session knows it from that frame. */
  function FrameWord(sender: string): string {
    SenderWord(SenderTypeOf(sender), sender == "ai")
  }

  /** What the answer on its way says to the request it was computed for. */
  function Delivered(w: World): PageResult {
    if w.answer.Snapshot? && w.answer.n <= |w.table| && w.client.outstanding != []
    then PageOf(w.table[..w.answer.n], w.client.outstanding[0].after) else Failed
  }

  function WorldAfter(h: seq<WorldEvent>): World {
    if h == [] then NEW_WORLD else WorldStep(WorldAfter(Init(h)), Last(h))
  }

  // ---- what catch-up handled ------------------------------------------------------------------------

  /** The server entries catch-up dealt with, shown or left out, in order. */
  function Handled(log: seq<Note>): seq<Parsed> {
    if log == [] then []
    else
      var n := Last(log);
      if n.Served? || n.Suppressed? then Handled(Init(log)) + [Parsed(n.id, n.sender, n.content)]
      else Handled(Init(log))
  }

  /** The readable entries of a list of rows. */
  function Readable(rows: seq<Row>): seq<Parsed> {
    if rows == [] then []
    else
      var p := ParseVisitorMessage(rows[0].dto);
      if p.Some? then [p.value] + Readable(rows[1..]) else Readable(rows[1..])
  }

  lemma {:induction false} ReadableConcat(a: seq<Row>, b: seq<Row>)
    ensures Readable(a + b) == Readable(a) + Readable(b)
  {
    if a == [] {
      assert a + b == b;
    } else {
      assert (a + b)[1..] == a[1..] + b;
      ReadableConcat(a[1..], b);
    }
  }

  function CursorOf(ps: seq<Parsed>): Option<int> {
    if ps == [] then None else Some(Last(ps).numericId)
  }

  lemma HandledSnoc(log: seq<Note>, n: Note)
    ensures Handled(log + [n]) ==
            if n.Served? || n.Suppressed? then Handled(log) + [Parsed(n.id, n.sender, n.content)]
            else Handled(log)
  {
    assert Init(log + [n]) == log;
  }

  lemma BumpHandlesNothing(s: State, sender: string)
    ensures Handled(BumpIfHidden(s, sender).log) == Handled(s.log)
  {
    HandledSnoc(s.log, UnreadChanged(s.unread + 1));
  }

  lemma TakeHandles(s: State, p: Parsed)
    requires s.cursor.None? || p.numericId > s.cursor.value
    ensures Handled(Take(s, p).log) == Handled(s.log) + [p]
    ensures Take(s, p).cursor == Some(p.numericId)
  {
    var t := s.(cursor := Advance(s.cursor, p.numericId));
    BumpHandlesNothing(t, p.sender);
    HandledSnoc(s.log, Suppressed(p.numericId, p.sender, p.content));
    HandledSnoc(BumpIfHidden(t, p.sender).log, Served(p.numericId, p.sender, p.content));
  }

  /** `t` is `s` after handling the rows' readable entries in order. */
  predicate HandledAll(s: State, t: State, rows: seq<Row>) {
    && Handled(t.log) == Handled(s.log) + Readable(rows)
    && t.cursor == if Readable(rows) == [] then s.cursor else CursorOf(Readable(rows))
  }

  lemma HandledAllCons(s: State, t: State, p: Parsed, more: seq<Parsed>)
    requires p.numericId > After(s.cursor)
    requires Handled(t.log) == Handled(Take(s, p).log) + more
    requires t.cursor == if more == [] then Take(s, p).cursor else CursorOf(more)
    ensures Handled(t.log) == Handled(s.log) + ([p] + more)
    ensures t.cursor == CursorOf([p] + more)
  {
    TakeHandles(s, p);
  }

  /** Rows that ascend above the cursor are handled one by one, in order. */
  lemma {:induction false} TakeRows(s: State, rows: seq<Row>, after: int)
    requires After(s.cursor) <= after && Ascending(rows)
    requires forall i :: 0 <= i < |rows| ==> Coherent(rows[i]) && after < rows[i].id
    ensures HandledAll(s, TakeAll(s, Dtos(rows)), rows)
    decreases |rows|
  {
    if rows != [] {
      var r, rest := rows[0], rows[1..];
      var p, t := ParseVisitorMessage(r.dto), TakeAll(s, Dtos(rows));
      assert forall i :: 0 <= i < |rest| ==> rest[i] == rows[i + 1];
      TakeAllHead(s, rows);
      if p.Some? {
        assert Take(s, p.value).cursor == Some(r.id);
        TakeRows(Take(s, p.value), rest, r.id);
        HandledAllCons(s, t, p.value, Readable(rest));
      } else {
        TakeRows(s, rest, r.id);
      }
    }
  }

  lemma TakeAllHead(s: State, rows: seq<Row>)
    requires rows != []
    ensures TakeAll(s, Dtos(rows)) == TakeAll(TakeEntry(s, rows[0].dto), Dtos(rows[1..]))
  {
    assert Dtos(rows)[1..] == Dtos(rows[1..]);
  }

  /** In an ascending table the rows above a cursor are its tail. */
  lemma {:induction false} AboveIsTail(rows: seq<Row>, after: int) returns (k: nat)
    requires Ascending(rows)
    ensures k <= |rows| && Above(rows, after) == rows[k..]
    ensures forall i :: 0 <= i < k ==> rows[i].id <= after
    ensures k < |rows| ==> rows[k].id > after
  {
    k := 0;
    if rows != [] {
      var front := Init(rows);
      k := AboveIsTail(front, after);
      if Last(rows).id > after {
        assert front[k..] + [Last(rows)] == rows[k..];
      } else {
        k := |rows|;
        assert Above(rows, after) == front[|front|..] + [] == [];
      }
    }
  }

  // ---- the invariant ----------------------------------------------------------------------------------

  /** The first `p` rows are handled, each readable one once and in order, and no others. */
  ghost predicate HandledUpTo(w: World, p: nat) {
    && p <= |w.table|
    && Handled(w.client.log) == Readable(w.table[..p])
    && w.client.cursor == CursorOf(Readable(w.table[..p]))
  }

  ghost predicate TableIsSound(w: World) {
    && Ascending(w.table)
    && (forall r :: r in w.table ==> Coherent(r))
    && (w.answer.Snapshot? ==> w.answer.n <= |w.table|)
  }

  ghost predicate UpToDate(w: World) {
    TableIsSound(w) && OneRequest(w.client) && exists p: nat :: HandledUpTo(w, p)
  }

  /** The readable rows up to the cursor are exactly the handled ones. */
  lemma {:induction false} ReadableBelow(rows: seq<Row>, p: nat, k: nat)
    requires Ascending(rows) && (forall r :: r in rows ==> Coherent(r)) && p <= |rows| && k <= |rows|
    requires forall i :: 0 <= i < k ==> rows[i].id <= After(CursorOf(Readable(rows[..p])))
    requires k < |rows| ==> rows[k].id > After(CursorOf(Readable(rows[..p])))
    ensures Readable(rows[..k]) == Readable(rows[..p])
    decreases p
  {
    assert rows != [] ==> rows[0] in rows;
    if p == 0 {
      assert k == 0;
    } else {
      var r := rows[p - 1];
      assert r in rows;
      assert rows[..p] == rows[..p - 1] + [r];
      ReadableConcat(rows[..p - 1], [r]);
      var q := ParseVisitorMessage(r.dto);
      if q.None? {
        assert Readable([r]) == [];
        assert Readable(rows[..p - 1]) == Readable(rows[..p]);
        ReadableBelow(rows, p - 1, k);
      } else {
        assert Readable([r]) == [q.value];
        assert After(CursorOf(Readable(rows[..p]))) == rows[p - 1].id;
        assert forall i :: 0 <= i < p ==> rows[i].id <= rows[p - 1].id;
        assert p < |rows| ==> rows[p - 1].id < rows[p].id;
        assert k == p;
      }
    }
  }

  lemma ClientKeepsHandled(s: State, e: Event)
    requires !e.PageArrives?
    ensures Handled(Session.Step(s, e).log) == Handled(s.log)
    ensures Session.Step(s, e).cursor == s.cursor
  {
    match e
    case Incoming(senderType, isAi, content) =>
      var sender := SenderWord(senderType, isAi);
      BumpHandlesNothing(s, sender);
      HandledSnoc(BumpIfHidden(s, sender).log, Live(sender, content));
    case MarkVisible =>
      HandledSnoc(s.log, BecameVisible);
      HandledSnoc(s.log + [BecameVisible], UnreadChanged(0));
    case MarkHidden => HandledSnoc(s.log, BecameHidden);
    case Connected =>
  }

  /** A page read from the first `n` rows is a stretch of the table that starts above the cursor. */
  lemma PageIsStretch(rows: seq<Row>, n: nat, cursor: Option<int>) returns (k: nat, m: nat)
    requires Ascending(rows) && n <= |rows|
    ensures k <= m <= |rows|
    ensures PageOf(rows[..n], cursor) == Page(Dtos(rows[k..m]), m < n)
    ensures forall i :: 0 <= i < k ==> rows[i].id <= After(cursor)
    ensures forall i :: k <= i < |rows| ==> rows[i].id > After(cursor)
    ensures m == if n <= k then k else if n - k > 100 then k + 100 else n
  {
    hide Above, Dtos, Coherent;
    var seen := rows[..n];
    k := AboveIsTail(rows, After(cursor));
    var j := AboveIsTail(seen, After(cursor));
    assert j < n ==> seen[j] == rows[j];
    assert k < n ==> rows[k] == seen[k];
    if n <= k {
      assert j == n;
      m := k;
      assert seen[j..] == [] == rows[k..m];
    } else {
      assert j == k;
      m := if n - k > PAGE_LIMIT then k + PAGE_LIMIT else n;
      SliceOfPrefix(rows, n, k, m);
    }
  }

  lemma DeliveredIsStretch(w: World, p: nat) returns (k: nat, m: nat)
    requires TableIsSound(w) && OneRequest(w.client) && w.client.inFlight
    requires HandledUpTo(w, p) && w.answer.Snapshot?
    ensures k <= m <= |w.table|
    ensures Readable(w.table[..k]) == Readable(w.table[..p])
    ensures Delivered(w) == Page(Dtos(w.table[k..m]), m < w.answer.n)
    ensures forall i :: k <= i < m ==> w.table[i].id > After(w.client.cursor)
  {
    k, m := PageIsStretch(w.table, w.answer.n, w.client.cursor);
    ReadableBelow(w.table, p, k);
  }

  /** A client that handled the table up to `k` handles it up to `m` with the stretch between. */
  lemma TakeStretch(s: State, table: seq<Row>, k: nat, m: nat)
    requires Ascending(table) && (forall r :: r in table ==> Coherent(r)) && k <= m <= |table|
    requires Handled(s.log) == Readable(table[..k]) && s.cursor == CursorOf(Readable(table[..k]))
    requires forall i :: k <= i < m ==> table[i].id > After(s.cursor)
    ensures var t := TakeAll(s, Dtos(table[k..m]));
            Handled(t.log) == Readable(table[..m]) && t.cursor == CursorOf(Readable(table[..m]))
  {
    var rows := table[k..m];
    forall i | 0 <= i < |rows|
      ensures Coherent(rows[i]) && rows[i].id > After(s.cursor)
    {
      assert rows[i] == table[k + i] && rows[i] in table;
    }
    TakeRows(s, rows, After(s.cursor));
    SliceOfPrefix(table, m, k, m);
    ReadableConcat(table[..k], rows);
  }

  lemma DeliverKeepsUpToDate(w: World) returns (p: nat)
    requires UpToDate(w) && w.answer.Snapshot? && w.client.inFlight
    ensures HandledUpTo(WorldStep(w, Deliver), p)
    ensures Delivered(w).Page? && !Delivered(w).hasMore ==> w.answer.n <= p
  {
    var p0: nat :| HandledUpTo(w, p0);
    var k;
    k, p := DeliveredIsStretch(w, p0);
    TakeStretch(w.client, w.table, k, p);
    OnPageLog(w.client, 0, Dtos(w.table[k..p]), p < w.answer.n);
  }

  /**
   * Exactly-once catch-up. In every run of client and server - messages stored and rendered live at
   * any time, connects overlapping, answers failing or arriving late - what catch-up has dealt with
   * is a prefix of the server's readable messages: each once, in order, with no gap.
   */
  lemma {:induction false} CatchUpIsExactlyOnce(h: seq<WorldEvent>)
    ensures UpToDate(WorldAfter(h))
  {
    if h == [] {
      assert HandledUpTo(NEW_WORLD, 0);
    } else {
      var w, e := WorldAfter(Init(h)), Last(h);
      CatchUpIsExactlyOnce(Init(h));
      StepKeepsUpToDate(w, e);
    }
  }

  /** The session event a step that moves the client amounts to. */
  function ClientEvent(w: World, e: WorldEvent): Event {
    match e
    case Broadcast(row) =>
      var p := ParseVisitorMessage(row.dto);
      if p.Some? then FrameOf(p.value.sender, row.sent) else Connected
    case Deliver => PageArrives(0, Delivered(w))
    case Client(event) => event
    case _ => Connected
  }

  /** A failed answer, or one nobody waits for, leaves cursor and log alone. */
  lemma EmptyDelivery(w: World)
    requires OneRequest(w.client) && !(w.answer.Snapshot? && w.client.inFlight)
    ensures var c := WorldStep(w, Deliver).client;
            c.log == w.client.log && c.cursor == w.client.cursor
  {
  }

  lemma StepKeepsUpToDate(w: World, e: WorldEvent)
    requires UpToDate(w)
    ensures UpToDate(WorldStep(w, e))
  {
    var p: nat :| HandledUpTo(w, p);
    var t := WorldStep(w, e);
    if t.client != w.client {
      StepKeepsOneRequest(w.client, ClientEvent(w, e));
    }
    match e
    case Append(row) =>
      if t != w {
        assert t.table[..p] == w.table[..p];
        assert HandledUpTo(t, p);
      }
    case Deliver =>
      if w.answer.Snapshot? && w.client.inFlight {
        var q := DeliverKeepsUpToDate(w);
        assert HandledUpTo(t, q);
      } else {
        EmptyDelivery(w);
        assert HandledUpTo(t, p);
      }
    case Client(event) =>
      if !event.PageArrives? {
        ClientKeepsHandled(w.client, event);
      }
      assert HandledUpTo(t, p);
    case Broadcast(row) =>
      var q := ParseVisitorMessage(row.dto);
      if q.Some? {
        ClientKeepsHandled(w.client, FrameOf(q.value.sender, row.sent));
      }
      assert HandledUpTo(t, p);
    case _ => assert HandledUpTo(t, p);
  }

  // ---- a whole run of catch-up ------------------------------------------------------------------------

  lemma WorldThen(h: seq<WorldEvent>, e: WorldEvent)
    ensures WorldAfter(h + [e]) == WorldStep(WorldAfter(h), e)
  {
    assert Init(h + [e]) == h;
  }

  /** `n` requests answered one after another. */
  function Rounds(n: nat): seq<WorldEvent> {
    if n == 0 then [] else Rounds(n - 1) + [ServerAnswers] + [Deliver]
  }

  /** An answer on its way is that to a request. */
  lemma {:induction false} AnswerNeedsRequest(h: seq<WorldEvent>)
    ensures WorldAfter(h).client.outstanding == [] ==> WorldAfter(h).answer == NoAnswer
  {
    if h != [] {
      var w, e := WorldAfter(Init(h)), Last(h);
      AnswerNeedsRequest(Init(h));
      CatchUpIsExactlyOnce(Init(h));
      if e.Client? && !e.event.PageArrives? {
        OnlyPagesAnswer(w.client, e.event);
      } else if e.Broadcast? && ParseVisitorMessage(e.row.dto).Some? {
        OnlyPagesAnswer(w.client, FrameOf(Meaning(e.row).sender, e.row.sent));
      }
    }
  }

  lemma OnlyPagesAnswer(s: State, e: Event)
    requires !e.PageArrives?
    ensures s.outstanding != [] ==> Session.Step(s, e).outstanding != []
  {
  }

  /** The rows the client has gone through: the first `q`, no others. */
  ghost predicate GoneThrough(w: World, q: nat) {
    && TableIsSound(w) && HandledUpTo(w, q)
    && (forall i :: 0 <= i < q ==> w.table[i].id <= After(w.client.cursor))
    && (forall i :: q <= i < |w.table| ==> w.table[i].id > After(w.client.cursor))
  }

  /** No answer is on its way, and the request is the given one, or there is none. */
  predicate Asks(w: World, round: Option<nat>) {
    && w.answer == NoAnswer && !w.client.queued && w.client.inFlight == round.Some?
    && w.client.outstanding == if round.Some? then [Request(w.client.cursor, round.value)] else []
  }

  predicate AllReadable(rows: seq<Row>) {
    forall i :: 0 <= i < |rows| ==> ParseVisitorMessage(rows[i].dto).Some?
  }

  function Min(a: nat, b: nat): nat {
    if a <= b then a else b
  }

  lemma CursorAtRow(table: seq<Row>, m: nat)
    requires 0 < m <= |table| && ParseVisitorMessage(table[m - 1].dto).Some? && Coherent(table[m - 1])
    ensures CursorOf(Readable(table[..m])) == Some(table[m - 1].id)
  {
    assert table[..m] == table[..m - 1] + [table[m - 1]];
    ReadableConcat(table[..m - 1], [table[m - 1]]);
    assert Readable([table[m - 1]]) == [Meaning(table[m - 1])];
  }

  /** What the server answers: the next hundred rows. */
  lemma NextHundred(w: World, q: nat)
    requires GoneThrough(w, q) && w.client.outstanding != [] && w.client.outstanding[0].after == w.client.cursor
    requires w.answer == Snapshot(|w.table|)
    ensures var m := Min(q + 100, |w.table|);
            q <= m && Delivered(w) == Page(Dtos(w.table[q..m]), m < |w.table|)
  {
    assert w.table[..|w.table|] == w.table;
    var k, m := PageIsStretch(w.table, |w.table|, w.client.cursor);
    SplitIsUnique(w.table, After(w.client.cursor), k, q);
  }

  lemma SplitIsUnique(rows: seq<Row>, after: int, k: nat, q: nat)
    requires k <= |rows| && q <= |rows|
    requires forall i :: 0 <= i < k ==> rows[i].id <= after
    requires forall i :: k <= i < |rows| ==> rows[i].id > after
    requires forall i :: 0 <= i < q ==> rows[i].id <= after
    requires forall i :: q <= i < |rows| ==> rows[i].id > after
    ensures k == q
  {
    assert k < |rows| ==> rows[k].id > after;
    assert q < |rows| ==> rows[q].id > after;
  }

  /** The session after a page with more to come, or the last of its run. */
  lemma PageIsTaken(s: State, messages: seq<Dto>, more: bool, n: nat)
    requires s.outstanding == [Request(s.cursor, n)] && s.inFlight && !s.queued
    ensures var t, u := Session.Step(s, PageArrives(0, Page(messages, more))), TakeAll(s, messages);
            && t.log == u.log && t.cursor == u.cursor && !t.queued
            && t.inFlight == (more && n < 10)
            && t.outstanding == if more && n < 10 then [Request(t.cursor, n + 1)] else []
  {
    OnPageLog(s, 0, messages, more);
    TakeAllFrame(Answered(s, 0), messages);
  }

  /** Rows handled up to a readable one are gone through. */
  lemma CursorSplits(w: World, q: nat, m: nat)
    requires TableIsSound(w) && HandledUpTo(w, m) && q <= m
    requires q < m ==> ParseVisitorMessage(w.table[m - 1].dto).Some?
    requires q == m ==> GoneThrough(w, q)
    ensures GoneThrough(w, m)
  {
    if q < m {
      assert w.table[m - 1] in w.table;
      CursorAtRow(w.table, m);
    }
  }

  lemma NextHundredArrive(w: World, q: nat, n: nat)
    requires GoneThrough(w, q) && Asks(w, Some(n))
    ensures var t, m := WorldStep(WorldStep(w, ServerAnswers), Deliver), Min(q + 100, |w.table|);
            && q <= m && t.table == w.table && t.answer == NoAnswer
            && t.client == Session.Step(w.client, PageArrives(0, Page(Dtos(w.table[q..m]), m < |w.table|)))
  {
    var u := WorldStep(w, ServerAnswers);
    assert GoneThrough(u, q);
    NextHundred(u, q);
  }

  /** A request and its answer: the next hundred rows, and the next request if rows follow them. */
  lemma OneRound(w: World, q: nat, n: nat)
    requires GoneThrough(w, q) && Asks(w, Some(n)) && AllReadable(w.table[q..])
    ensures var t, m := WorldStep(WorldStep(w, ServerAnswers), Deliver), Min(q + 100, |w.table|);
            && t.table == w.table && GoneThrough(t, m)
            && Asks(t, if m < |w.table| && n < 10 then Some(n + 1) else None)
  {
    hide WorldStep, Session.Step;
    var s, m := w.client, Min(q + 100, |w.table|);
    var messages := Dtos(w.table[q..m]);
    var t := WorldStep(WorldStep(w, ServerAnswers), Deliver);
    NextHundredArrive(w, q, n);
    PageIsTaken(s, messages, m < |w.table|, n);
    TakeStretch(s, w.table, q, m);
    if q < m {
      assert w.table[m - 1] == w.table[q..][m - 1 - q];
    } else {
      assert w.table[q..m] == [];
    }
    CursorSplits(t, q, m);
  }

  /** With no request on its way an exchange does nothing. */
  lemma IdleRound(w: World)
    requires Asks(w, None)
    ensures WorldStep(WorldStep(w, ServerAnswers), Deliver) == w
  {
  }

  /** Where the client is after `n` exchanges that began with its first request at row `q`. */
  ghost predicate IsAfterRounds(w: World, t: World, q: nat, n: nat) {
    var m := Min(q + 100 * n, |w.table|);
    && t.table == w.table && GoneThrough(t, m)
    && Asks(t, if n == 0 || (m < |w.table| && n < 10) then Some(n + 1) else None)
  }

  lemma OneRoundMore(w: World, t: World, q: nat, n: nat)
    requires IsAfterRounds(w, t, q, n) && n < 10 && q <= |w.table| && AllReadable(w.table[q..])
    ensures IsAfterRounds(w, Exchange(t), q, n + 1)
  {
    var m := Min(q + 100 * n, |w.table|);
    if n == 0 || m < |w.table| {
      forall i | 0 <= i < |w.table[m..]|
        ensures ParseVisitorMessage(w.table[m..][i].dto).Some?
      {
        assert w.table[m..][i] == w.table[q..][m - q + i];
      }
      OneRound(t, m, n + 1);
    } else {
      IdleRound(t);
    }
  }

  /** A request answered, and the answer delivered. */
  function Exchange(w: World): World {
    WorldStep(WorldStep(w, ServerAnswers), Deliver)
  }

  function Exchanges(w: World, n: nat): World {
    if n == 0 then w else Exchange(Exchanges(w, n - 1))
  }

  lemma ExchangeThen(g: seq<WorldEvent>)
    ensures WorldAfter(g + [ServerAnswers] + [Deliver]) == Exchange(WorldAfter(g))
  {
    WorldThen(g, ServerAnswers);
    WorldThen(g + [ServerAnswers], Deliver);
  }

  lemma {:induction false} RoundsAreExchanges(h: seq<WorldEvent>, w: World, n: nat)
    requires w == WorldAfter(h)
    ensures WorldAfter(h + Rounds(n)) == Exchanges(w, n)
  {
    hide WorldAfter, Exchange, WorldStep;
    if n == 0 {
      assert h + Rounds(0) == h;
    } else {
      RoundsAreExchanges(h, w, n - 1);
      ExchangeThen(h + Rounds(n - 1));
      assert h + Rounds(n) == h + Rounds(n - 1) + [ServerAnswers] + [Deliver];
    }
  }

  lemma {:induction false} AfterRounds(w: World, q: nat, n: nat)
    requires IsAfterRounds(w, w, q, 0) && n <= 10
    requires q <= |w.table| && AllReadable(w.table[q..])
    ensures IsAfterRounds(w, Exchanges(w, n), q, n)
  {
    hide IsAfterRounds, AllReadable, Exchange;
    if n > 0 {
      AfterRounds(w, q, n - 1);
      OneRoundMore(w, Exchanges(w, n - 1), q, n - 1);
    }
  }

  /** In every world the rows up to the cursor are gone through. */
  lemma UpToCursor(w: World) returns (q: nat)
    requires UpToDate(w)
    ensures GoneThrough(w, q) && Above(w.table, After(w.client.cursor)) == w.table[q..]
  {
    var p: nat :| HandledUpTo(w, p);
    q := AboveIsTail(w.table, After(w.client.cursor));
    ReadableBelow(w.table, p, q);
    assert forall i :: q <= i < |w.table| ==> w.table[i].id >= w.table[q].id;
  }

  lemma ConnectAsks(w: World, q: nat)
    requires GoneThrough(w, q) && !w.client.inFlight && !w.client.queued && w.client.outstanding == []
    requires w.answer == NoAnswer
    ensures var t := WorldStep(w, Client(Connected));
            t.table == w.table && IsAfterRounds(t, t, q, 0)
  {
    ClientKeepsHandled(w.client, Connected);
  }

  /** From `w`, with `q` rows up to its cursor, to `t`: a thousand rows more dealt with, or all, and the run over. */
  predicate HasCaughtUp(w: World, t: World, q: nat) {
    && q <= |w.table| && Above(w.table, After(w.client.cursor)) == w.table[q..]
    && t.table == w.table && !t.client.inFlight && t.client.outstanding == []
    && Handled(t.client.log) == Readable(w.table[..Min(q + 1000, |w.table|)])
  }

  /**
   * A connect when no run is in flight, and its run answered to the end: the client has dealt with the
   * next thousand rows above the cursor, or with all there are if they are fewer. Asked is that those
   * rows are readable.
   */
  lemma RunCatchesUp(h: seq<WorldEvent>) returns (q: nat)
    requires !WorldAfter(h).client.inFlight
    requires AllReadable(Above(WorldAfter(h).table, After(WorldAfter(h).client.cursor)))
    ensures HasCaughtUp(WorldAfter(h), WorldAfter(h + [Client(Connected)] + Rounds(10)), q)
  {
    CatchUpIsExactlyOnce(h);
    AnswerNeedsRequest(h);
    var g := WorldIsSessionRun(h);
    RunsAreBounded(g);
    WorldThen(h, Client(Connected));
    q := UpToCursor(WorldAfter(h));
    ConnectAsks(WorldAfter(h), q);
    RoundsAreExchanges(h + [Client(Connected)], WorldAfter(h + [Client(Connected)]), 10);
    AfterRounds(WorldAfter(h + [Client(Connected)]), q, 10);
  }

  /** So up to a thousand messages are caught up with by one connect. */
  lemma ConnectCatchesUp(h: seq<WorldEvent>)
    requires !WorldAfter(h).client.inFlight
    requires AllReadable(Above(WorldAfter(h).table, After(WorldAfter(h).client.cursor)))
    requires |Above(WorldAfter(h).table, After(WorldAfter(h).client.cursor))| <= 1000
    ensures Handled(WorldAfter(h + [Client(Connected)] + Rounds(10)).client.log) == Readable(WorldAfter(h).table)
  {
    hide WorldAfter, Rounds, Handled, Readable, Above;
    var w := WorldAfter(h);
    var q := RunCatchesUp(h);
    assert w.table[..|w.table|] == w.table;
  }

  lemma {:induction false} UnreadableChangesNothing(s: State, rows: seq<Row>)
    requires forall i :: 0 <= i < |rows| ==> ParseVisitorMessage(rows[i].dto).None?
    ensures TakeAll(s, Dtos(rows)) == s
    decreases |rows|
  {
    if rows != [] {
      TakeAllHead(s, rows);
      UnreadableChangesNothing(s, rows[1..]);
    }
  }

  /** With a hundred unreadable rows right above the cursor and more after them a run gets nowhere. */
  lemma UnreadablePageStalls(w: World, q: nat, n: nat)
    requires GoneThrough(w, q) && Asks(w, Some(n)) && q + 100 < |w.table|
    requires forall i :: q <= i < q + 100 ==> ParseVisitorMessage(w.table[i].dto).None?
    ensures var t := WorldStep(WorldStep(w, ServerAnswers), Deliver);
            && t.client.log == w.client.log && t.client.cursor == w.client.cursor
            && GoneThrough(t, q) && Asks(t, if n < 10 then Some(n + 1) else None)
  {
    var u, s := WorldStep(w, ServerAnswers), w.client;
    assert GoneThrough(u, q);
    NextHundred(u, q);
    UnreadableChangesNothing(s, w.table[q..q + 100]);
    PageIsTaken(s, Dtos(w.table[q..q + 100]), true, n);
  }

  // ---- its consequences ---------------------------------------------------------------------------------

  lemma {:induction false} ReadableIdsAbove(rows: seq<Row>, bound: nat)
    requires forall i :: 0 <= i < |rows| ==> Coherent(rows[i]) && bound < rows[i].id
    ensures forall i :: 0 <= i < |Readable(rows)| ==> bound < Readable(rows)[i].numericId
  {
    if rows != [] {
      ReadableIdsAbove(rows[1..], bound);
    }
  }

  lemma {:induction false} ReadableAscends(rows: seq<Row>)
    requires Ascending(rows)
    requires forall i :: 0 <= i < |rows| ==> Coherent(rows[i])
    ensures forall i, j :: 0 <= i < j < |Readable(rows)| ==>
              Readable(rows)[i].numericId < Readable(rows)[j].numericId
  {
    if rows != [] {
      var rest := rows[1..];
      assert forall i :: 0 <= i < |rest| ==> rest[i] == rows[i + 1];
      ReadableAscends(rest);
      ReadableIdsAbove(rest, rows[0].id);
    }
  }

  /** No server id is dealt with, and so none is shown, twice. */
  lemma NoIdTwice(h: seq<WorldEvent>)
    ensures var ps := Handled(WorldAfter(h).client.log);
            forall i, j :: 0 <= i < j < |ps| ==> ps[i].numericId < ps[j].numericId
  {
    CatchUpIsExactlyOnce(h);
    var w := WorldAfter(h);
    var p: nat :| HandledUpTo(w, p);
    forall i | 0 <= i < p
      ensures Coherent(w.table[..p][i])
    {
      assert w.table[i] in w.table;
    }
    ReadableAscends(w.table[..p]);
  }

  /**
   * A run that ends because the server reports nothing more has dealt with every readable message
   * the server had when it answered.
   */
  lemma FinishedRunMissesNothing(h: seq<WorldEvent>)
    requires WorldAfter(h).answer.Snapshot? && WorldAfter(h).client.inFlight
    requires Delivered(WorldAfter(h)).Page? && !Delivered(WorldAfter(h)).hasMore
    ensures var w := WorldAfter(h);
            w.answer.n <= |w.table| &&
            Readable(w.table[..w.answer.n]) <= Handled(WorldAfter(h + [Deliver]).client.log)
  {
    CatchUpIsExactlyOnce(h);
    var w := WorldAfter(h);
    var p := DeliverKeepsUpToDate(w);
    assert Init(h + [Deliver]) == h;
    SliceOfPrefix(w.table, p, w.answer.n, p);
    ReadableConcat(w.table[..w.answer.n], w.table[w.answer.n..p]);
  }

  /** The session's own view of a run of client and server. */
  lemma {:induction false} WorldIsSessionRun(h: seq<WorldEvent>) returns (g: seq<Event>)
    ensures WorldAfter(h).client == Session.StateAfter(g)
  {
    g := [];
    if h != [] {
      g := WorldIsSessionRun(Init(h));
      var w, e := WorldAfter(Init(h)), Last(h);
      if WorldAfter(h).client != w.client {
        Session.StepSnoc(g, ClientEvent(w, e));
        g := g + [ClientEvent(w, e)];
      }
    }
  }

  lemma {:induction false} HandledIsLogged(log: seq<Note>, p: Parsed)
    requires p in Handled(log)
    ensures exists n :: n in log && (n.Served? || n.Suppressed?) &&
                        n.id == p.numericId && n.sender == p.sender && n.content == p.content
  {
    var n := Last(log);
    if p in Handled(Init(log)) {
      HandledIsLogged(Init(log), p);
    } else {
      assert n in log;
    }
  }

  lemma {:induction false} ReadableMembers(rows: seq<Row>, i: nat)
    requires i < |rows| && ParseVisitorMessage(rows[i].dto).Some?
    ensures ParseVisitorMessage(rows[i].dto).value in Readable(rows)
  {
    if i > 0 {
      ReadableMembers(rows[1..], i - 1);
    }
  }

  /** A readable message of the table that the cursor has reached. */
  ghost predicate Passed(w: World, row: Row) {
    && row in w.table && ParseVisitorMessage(row.dto).Some?
    && w.client.cursor.Some? && row.id <= w.client.cursor.value
  }

  function Meaning(row: Row): Parsed
    requires ParseVisitorMessage(row.dto).Some?
  {
    ParseVisitorMessage(row.dto).value
  }

  lemma PassedIsHandled(w: World, row: Row)
    requires UpToDate(w) && Passed(w, row)
    ensures Meaning(row) in Handled(w.client.log) && Meaning(row).numericId == row.id
  {
    var p: nat :| HandledUpTo(w, p);
    var i :| 0 <= i < |w.table| && w.table[i] == row;
    var k := AboveIsTail(w.table, After(w.client.cursor));
    ReadableBelow(w.table, p, k);
    assert k == |w.table| || k == i || (k < i <==> w.table[k].id < w.table[i].id);
    ReadableMembers(w.table[..k], i);
  }

  /**
   * Every readable message the cursor has reached was dealt with: shown by catch-up, or left out
   * because a message with the same key had been rendered live. That message need not be this one.
   */
  lemma PassedIsAccounted(h: seq<WorldEvent>, row: Row)
    requires Passed(WorldAfter(h), row)
    ensures var log, p := WorldAfter(h).client.log, Meaning(row);
            || Served(p.numericId, p.sender, p.content) in log
            || (Suppressed(p.numericId, p.sender, p.content) in log && ShownLive(log, Key(p.sender, p.content)))
  {
    CatchUpIsExactlyOnce(h);
    PassedIsHandled(WorldAfter(h), row);
    HandledIsLogged(WorldAfter(h).client.log, Meaning(row));
    var g := WorldIsSessionRun(h);
    SuppressedKeyWasShown(g);
  }

  // ---- how often a message reaches the user -----------------------------------------------------------

  /** How often the live frame of a message came. */
  function Frames(h: seq<WorldEvent>, row: Row): nat {
    if h == [] then 0 else Frames(Init(h), row) + if Last(h) == Broadcast(row) then 1 else 0
  }

  /** How often a message was emitted: with each of its own frames, and by catch-up under its id. */
  function Emissions(h: seq<WorldEvent>, row: Row): nat {
    Frames(h, row) + Times(ServedOf(WorldAfter(h).client.log), row.id)
  }

  /** A frame is shown as it comes, whatever was shown before. */
  lemma {:induction false} FrameIsShown(w: World, row: Row)
    requires ParseVisitorMessage(row.dto).Some?
    ensures var log, p := WorldStep(w, Broadcast(row)).client.log, Meaning(row);
            && log != [] && Last(log) == Live(FrameWord(p.sender), row.sent)
            && ServedOf(log) == ServedOf(w.client.log)
  {
    OtherStepsServeNothing(w.client, FrameOf(Meaning(row).sender, row.sent));
  }

  /** The page with this id is taken at step `d`. */
  predicate TakenAt(h: seq<WorldEvent>, d: nat, id: int) {
    && d < |h| && h[d] == Deliver
    && Times(Handled(WorldAfter(h[..d]).client.log), id) == 0
    && Times(Handled(WorldAfter(h[..d + 1]).client.log), id) > 0
  }

  function WindowAt(h: seq<WorldEvent>, d: nat): seq<string>
    requires d <= |h|
  {
    WorldAfter(h[..d]).client.fingerprints
  }

  lemma {:induction false} MeaningsOfDtos(rows: seq<Row>)
    ensures Readables(Dtos(rows)) == Readable(rows)
  {
    if rows != [] {
      assert Dtos(rows)[1..] == Dtos(rows[1..]);
      MeaningsOfDtos(rows[1..]);
    }
  }

  predicate Ascend(ps: seq<Parsed>) {
    forall i, j :: 0 <= i < j < |ps| ==> ps[i].numericId < ps[j].numericId
  }

  lemma {:induction false} TimesOfAbsent(ps: seq<Parsed>, id: int)
    requires forall i :: 0 <= i < |ps| ==> ps[i].numericId != id
    ensures Times(ps, id) == 0
  {
    if ps != [] {
      TimesOfAbsent(Init(ps), id);
    }
  }

  lemma {:induction false} TimesOfPresent(ps: seq<Parsed>, p: Parsed)
    requires p in ps
    ensures Times(ps, p.numericId) > 0
    ensures Ascend(ps) ==> Times(ps, p.numericId) == 1
  {
    if p in Init(ps) {
      TimesOfPresent(Init(ps), p);
    } else if Ascend(ps) {
      TimesOfAbsent(Init(ps), p.numericId);
    }
  }

  lemma {:induction false} UnseenIsPart(ps: seq<Parsed>, window: seq<string>, id: int)
    ensures Times(Unseen(ps, window), id) <= Times(ps, id)
  {
    if ps != [] {
      UnseenIsPart(ps[1..], window, id);
      assert ps == [ps[0]] + ps[1..] && Init([ps[0]]) == [];
      TimesOfConcat([ps[0]], ps[1..], id);
      TimesOfConcat([ps[0]], Unseen(ps[1..], window), id);
    }
  }

  /** Among ascending entries, one is unseen exactly if its key is not in the window. */
  lemma {:induction false} UnseenByKey(ps: seq<Parsed>, window: seq<string>, p: Parsed)
    requires Ascend(ps) && p in ps
    ensures Times(Unseen(ps, window), p.numericId) == if Key(p.sender, p.content) in window then 0 else 1
  {
    var rest, id := ps[1..], p.numericId;
    assert ps == [ps[0]] + rest && Init([ps[0]]) == [];
    TimesOfConcat([ps[0]], Unseen(rest, window), id);
    if ps[0] == p {
      TimesOfAbsent(rest, id);
      UnseenIsPart(rest, window, id);
    } else {
      var i :| 0 <= i < |ps| && ps[i] == p;
      assert rest[i - 1] == p;
      UnseenByKey(rest, window, p);
    }
  }

  /** A page of ascending rows above the cursor. */
  lemma {:induction false} StretchAdds(s: State, rows: seq<Row>, hasMore: bool)
    requires s.outstanding != [] && Ascending(rows)
    requires forall i :: 0 <= i < |rows| ==> Coherent(rows[i]) && rows[i].id > After(s.cursor)
    ensures var t := Session.Step(s, PageArrives(0, Page(Dtos(rows), hasMore)));
            && Handled(t.log) == Handled(s.log) + Readable(rows)
            && ServedOf(t.log) == ServedOf(s.log) + Unseen(Readable(rows), s.fingerprints)
  {
    TakeRows(s, rows, After(s.cursor));
    PageServes(s, Dtos(rows));
    MeaningsOfDtos(rows);
    OnPageLog(s, 0, Dtos(rows), hasMore);
  }

  lemma StretchIsSound(w: World, k: nat, m: nat)
    requires TableIsSound(w) && k <= m <= |w.table|
    requires forall i :: k <= i < m ==> w.table[i].id > After(w.client.cursor)
    ensures var rows := w.table[k..m];
            Ascending(rows) && forall i :: 0 <= i < |rows| ==> Coherent(rows[i]) && rows[i].id > After(w.client.cursor)
  {
    var rows := w.table[k..m];
    forall i | 0 <= i < |rows|
      ensures Coherent(rows[i]) && rows[i].id > After(w.client.cursor)
    {
      assert rows[i] == w.table[k + i] && rows[i] in w.table;
    }
  }

  /** What a delivery adds to what was handled and to what was shown. */
  lemma {:induction false} DeliveryAdds(w: World) returns (ps: seq<Parsed>)
    requires UpToDate(w)
    ensures var log, after := w.client.log, WorldStep(w, Deliver).client.log;
            && Handled(after) == Handled(log) + ps
            && ServedOf(after) == ServedOf(log) + Unseen(ps, w.client.fingerprints)
  {
    hide Session.Step;
    ps := [];
    if !(w.answer.Snapshot? && w.client.inFlight) {
      EmptyDelivery(w);
    } else {
      var p0: nat :| HandledUpTo(w, p0);
      var k, m := DeliveredIsStretch(w, p0);
      var rows := w.table[k..m];
      StretchIsSound(w, k, m);
      StretchAdds(w.client, rows, m < w.answer.n);
      ps := Readable(rows);
    }
  }

  /** Other steps add nothing to either. */
  lemma {:induction false} OthersAddNothing(w: World, e: WorldEvent)
    requires !e.Deliver?
    ensures Handled(WorldStep(w, e).client.log) == Handled(w.client.log)
    ensures ServedOf(WorldStep(w, e).client.log) == ServedOf(w.client.log)
  {
    if WorldStep(w, e).client != w.client {
      ClientKeepsHandled(w.client, ClientEvent(w, e));
      OtherStepsServeNothing(w.client, ClientEvent(w, e));
    }
  }

  lemma {:induction false} ServedIsHandled(h: seq<WorldEvent>, id: int)
    ensures Times(ServedOf(WorldAfter(h).client.log), id) <= Times(Handled(WorldAfter(h).client.log), id)
  {
    if h != [] {
      var w, e := WorldAfter(Init(h)), Last(h);
      ServedIsHandled(Init(h), id);
      if e.Deliver? {
        CatchUpIsExactlyOnce(Init(h));
        var ps := DeliveryAdds(w);
        TimesOfConcat(Handled(w.client.log), ps, id);
        TimesOfConcat(ServedOf(w.client.log), Unseen(ps, w.client.fingerprints), id);
        UnseenIsPart(ps, w.client.fingerprints, id);
      } else {
        OthersAddNothing(w, e);
      }
    }
  }

  /** Each handled message was taken at one step, and shown by catch-up iff its key was not in the window then. */
  lemma {:induction false} HandledWasTaken(h: seq<WorldEvent>, p: Parsed) returns (d: nat)
    requires p in Handled(WorldAfter(h).client.log)
    ensures TakenAt(h, d, p.numericId)
    ensures Times(ServedOf(WorldAfter(h).client.log), p.numericId)
            == if Key(p.sender, p.content) in WindowAt(h, d) then 0 else 1
  {
    var g, e := Init(h), Last(h);
    CatchUpIsExactlyOnce(g);
    if p in Handled(WorldAfter(g).client.log) {
      d := HandledWasTaken(g, p);
      TakenEarlier(h, d, p.numericId);
      ShownNoMore(h, p);
    } else {
      NewlyHandled(h, p);
      d := |g|;
    }
  }

  /** A message handled before is not shown again by catch-up. */
  lemma {:induction false} ShownNoMore(h: seq<WorldEvent>, p: Parsed)
    requires h != [] && p in Handled(WorldAfter(Init(h)).client.log)
    ensures Times(ServedOf(WorldAfter(h).client.log), p.numericId)
            == Times(ServedOf(WorldAfter(Init(h)).client.log), p.numericId)
  {
    var w, e, id := WorldAfter(Init(h)), Last(h), p.numericId;
    if e.Deliver? {
      CatchUpIsExactlyOnce(Init(h));
      NoIdTwice(h);
      var ps := DeliveryAdds(w);
      var before := Handled(w.client.log);
      TimesOfConcat(before, ps, id);
      TimesOfConcat(ServedOf(w.client.log), Unseen(ps, w.client.fingerprints), id);
      TimesOfPresent(before, p);
      TimesOfPresent(before + ps, p);
      UnseenIsPart(ps, w.client.fingerprints, id);
    } else {
      OthersAddNothing(w, e);
    }
  }

  /** A message handled just now is shown exactly if its key is not in the window. */
  lemma {:induction false} NewlyHandled(h: seq<WorldEvent>, p: Parsed)
    requires h != [] && p in Handled(WorldAfter(h).client.log) && p !in Handled(WorldAfter(Init(h)).client.log)
    ensures TakenAt(h, |h| - 1, p.numericId)
    ensures Times(ServedOf(WorldAfter(h).client.log), p.numericId)
            == if Key(p.sender, p.content) in WindowAt(h, |h| - 1) then 0 else 1
  {
    var w, e, id := WorldAfter(Init(h)), Last(h), p.numericId;
    if !e.Deliver? {
      OthersAddNothing(w, e);
    } else {
      CatchUpIsExactlyOnce(Init(h));
      NoIdTwice(h);
      var ps := DeliveryAdds(w);
      TakenLast(h, ps, p);
      TimesOfConcat(ServedOf(w.client.log), Unseen(ps, w.client.fingerprints), id);
    }
  }

  lemma {:induction false} TakenEarlier(h: seq<WorldEvent>, d: nat, id: int)
    requires h != [] && TakenAt(Init(h), d, id)
    ensures TakenAt(h, d, id) && WindowAt(h, d) == WindowAt(Init(h), d)
  {
    assert h[..d] == Init(h)[..d] && h[..d + 1] == Init(h)[..d + 1];
  }

  lemma {:induction false} TakenLast(h: seq<WorldEvent>, ps: seq<Parsed>, p: Parsed)
    requires h != [] && Last(h) == Deliver && p in ps && Ascend(Handled(WorldAfter(h).client.log))
    requires Handled(WorldAfter(h).client.log) == Handled(WorldAfter(Init(h)).client.log) + ps
    ensures TakenAt(h, |h| - 1, p.numericId)
    ensures WindowAt(h, |h| - 1) == WorldAfter(Init(h)).client.fingerprints
    ensures Times(ServedOf(WorldAfter(Init(h)).client.log), p.numericId) == 0
    ensures Times(Unseen(ps, WindowAt(h, |h| - 1)), p.numericId)
            == if Key(p.sender, p.content) in WindowAt(h, |h| - 1) then 0 else 1
  {
    var before := Handled(WorldAfter(Init(h)).client.log);
    assert h[..|h| - 1] == Init(h) && h[..|h|] == h;
    NewAmongAscending(before, ps, p);
    ServedIsHandled(Init(h), p.numericId);
    UnseenByKey(ps, WorldAfter(Init(h)).client.fingerprints, p);
  }

  lemma {:induction false} NewAmongAscending(before: seq<Parsed>, ps: seq<Parsed>, p: Parsed)
    requires Ascend(before + ps) && p in ps
    ensures Ascend(ps)
    ensures Times(before, p.numericId) == 0 && Times(before + ps, p.numericId) == 1
  {
    var all := before + ps;
    assert forall i :: 0 <= i < |ps| ==> ps[i] == all[|before| + i];
    TimesOfPresent(all, p);
    TimesOfPresent(ps, p);
    TimesOfConcat(before, ps, p.numericId);
  }

  lemma {:induction false} HandledOnlyGrows(h: seq<WorldEvent>, i: nat, id: int)
    requires i <= |h|
    ensures Times(Handled(WorldAfter(h[..i]).client.log), id) <= Times(Handled(WorldAfter(h).client.log), id)
  {
    if i == |h| {
      assert h[..i] == h;
    } else {
      var w, e := WorldAfter(Init(h)), Last(h);
      assert h[..i] == Init(h)[..i];
      HandledOnlyGrows(Init(h), i, id);
      if e.Deliver? {
        CatchUpIsExactlyOnce(Init(h));
        var ps := DeliveryAdds(w);
        TimesOfConcat(Handled(w.client.log), ps, id);
      } else {
        OthersAddNothing(w, e);
      }
    }
  }

  lemma {:induction false} TakenOnlyOnce(h: seq<WorldEvent>, c: nat, d: nat, id: int)
    requires TakenAt(h, c, id) && TakenAt(h, d, id)
    ensures c == d
  {
    if c < d {
      assert h[..d][..c + 1] == h[..c + 1];
      HandledOnlyGrows(h[..d], c + 1, id);
    } else if d < c {
      assert h[..c][..d + 1] == h[..d + 1];
      HandledOnlyGrows(h[..c], d + 1, id);
    }
  }

  /**
   * Delivery of a stored message to the user. In every run each readable message the cursor has
   * reached was taken from a page at exactly one step, and it was emitted once for each of its own
   * live frames, and once more by catch-up unless its key was in the window at that step.
   */
  lemma {:induction false} PassedIsEmitted(h: seq<WorldEvent>, row: Row) returns (d: nat)
    requires Passed(WorldAfter(h), row)
    ensures d < |h| && forall c :: TakenAt(h, c, row.id) <==> c == d
    ensures Emissions(h, row) ==
            Frames(h, row) + if Key(Meaning(row).sender, Meaning(row).content) in WindowAt(h, d) then 0 else 1
  {
    CatchUpIsExactlyOnce(h);
    PassedIsHandled(WorldAfter(h), row);
    d := HandledWasTaken(h, Meaning(row));
    forall c | TakenAt(h, c, row.id)
      ensures c == d
    {
      TakenOnlyOnce(h, c, d, row.id);
    }
  }

  /**
   * A message is lost if and only if its own frame never came and its key was in the window when its
   * page was taken. If its frame came once at most, it is shown twice if and only if the frame came
   * and the key was not in the window then.
   */
  lemma {:induction false} LostOrRepeated(h: seq<WorldEvent>, row: Row, d: nat)
    requires Passed(WorldAfter(h), row) && TakenAt(h, d, row.id)
    ensures var inWindow := Key(Meaning(row).sender, Meaning(row).content) in WindowAt(h, d);
            && (Emissions(h, row) == 0 <==> Frames(h, row) == 0 && inWindow)
            && (Emissions(h, row) > 1 <==> Frames(h, row) > 1 || (Frames(h, row) == 1 && !inWindow))
            && (Frames(h, row) <= 1 ==> (Emissions(h, row) == 2 <==> Frames(h, row) == 1 && !inWindow))
  {
    var c := PassedIsEmitted(h, row);
  }

  // ---- two runs --------------------------------------------------------------------------------------------

  lemma WorldSnoc(h: seq<WorldEvent>, e: WorldEvent, row: Row)
    ensures WorldAfter(h + [e]) == WorldStep(WorldAfter(h), e)
    ensures Frames(h + [e], row) == Frames(h, row) + if e == Broadcast(row) then 1 else 0
  {
    assert Init(h + [e]) == h;
  }

  function Hi(id: nat): Row {
    Row(id, Dto(Some(Text.Decimal(id)), Some("agent"), Some("hi")), "hi")
  }

  lemma HiIsTrimmed()
    ensures Text.Trim("hi", Text.IsGoSpace) == "hi" && Text.Trim(" hi", Text.IsGoSpace) == "hi"
  {
    assert " hi"[1..] == "hi";
    assert Text.TrimLeft("hi", Text.IsGoSpace) == "hi" && Text.TrimRight("hi", Text.IsGoSpace) == "hi";
  }

  lemma HiReads(id: nat)
    requires 1 <= id <= Text.MAX_SAFE_INTEGER
    ensures ParseVisitorMessage(Hi(id).dto) == Some(Parsed(id, "agent", "hi")) && Coherent(Hi(id))
    ensures FrameOf("agent", "hi") == Incoming(Agent, false, "hi")
  {
    ServerRowsParse(id, "agent", "hi");
    HiIsTrimmed();
  }

  lemma AnsweredAtOnce(w: World)
    requires w.answer == NoAnswer && !w.client.inFlight && w.client.outstanding == []
    ensures var t := WorldStep(WorldStep(WorldStep(w, Client(Connected)), ServerAnswers), Deliver);
            && t.table == w.table && t.answer == NoAnswer
            && t.client
               == Session.Step(Session.Step(w.client, Connected), PageArrives(0, PageOf(w.table, w.client.cursor)))
  {
    assert w.table[..|w.table|] == w.table;
  }

  /** A connect and its answer: the page is taken with the window of the moment. */
  lemma CatchesUp(h: seq<WorldEvent>, row: Row) returns (g: seq<WorldEvent>)
    requires WorldAfter(h).answer == NoAnswer
    requires !WorldAfter(h).client.inFlight && WorldAfter(h).client.outstanding == []
    ensures Frames(g, row) == Frames(h, row) && WorldAfter(g).table == WorldAfter(h).table
    ensures var w := WorldAfter(h);
            WorldAfter(g).client
            == Session.Step(Session.Step(w.client, Connected), PageArrives(0, PageOf(w.table, w.client.cursor)))
    ensures WorldAfter(g).answer == NoAnswer
  {
    hide WorldStep;
    g := h + [Client(Connected)];
    WorldSnoc(h, Client(Connected), row);
    WorldSnoc(g, ServerAnswers, row);
    WorldSnoc(g + [ServerAnswers], Deliver, row);
    AnsweredAtOnce(WorldAfter(h));
    g := g + [ServerAnswers] + [Deliver];
  }

  lemma PageOfOne(row: Row)
    requires row.id >= 1
    ensures PageOf([row], None) == Page([row.dto], false)
  {
    assert Init([row]) == [];
    assert Above([row], 0) == [row] && [row][1..] == [];
    assert Dtos([row]) == [row.dto];
  }

  /** A sender for whom live frames and stored messages use the same word. */
  predicate HasFrames(sender: string) {
    FrameWord(sender) == sender
  }

  /** A live frame, then a message stored, the same or another. */
  lemma FrameThenStored(first: Row, row: Row) returns (h: seq<WorldEvent>)
    requires Coherent(row) && ParseVisitorMessage(first.dto).Some?
    ensures Frames(h, row) == if first == row then 1 else 0
    ensures var w, p := WorldAfter(h), Meaning(first);
            && w.table == [row] && w.answer == NoAnswer
            && w.client.fingerprints == [Key(FrameWord(p.sender), first.sent)]
            && !w.client.inFlight && w.client.outstanding == [] && w.client.cursor == None
            && ServedOf(w.client.log) == []
  {
    WorldSnoc([], Broadcast(first), row);
    WorldSnoc([] + [Broadcast(first)], Append(row), row);
    h := [] + [Broadcast(first)] + [Append(row)];
    FrameIsShown(NEW_WORLD, first);
  }

  /** Of any two messages with one sender and one text, the one whose own frame is missed can be lost. */
  lemma EqualTextIsLost(first: Row, row: Row) returns (h: seq<WorldEvent>)
    requires first != row && Coherent(row)
    requires ParseVisitorMessage(first.dto).Some? && ParseVisitorMessage(row.dto).Some?
    requires Meaning(first).sender == Meaning(row).sender && Meaning(first).content == Meaning(row).content
    requires HasFrames(Meaning(row).sender) && first.sent == Meaning(first).content
    ensures Passed(WorldAfter(h), row) && Emissions(h, row) == 0
  {
    h := FrameThenStored(first, row);
    var w, p := WorldAfter(h), Meaning(row);
    h := CatchesUp(h, row);
    PageOfOne(row);
    ShowsOrNot(w.client, row, p);
  }

  lemma MessageCanBeLost() returns (h: seq<WorldEvent>, row: Row)
    ensures Passed(WorldAfter(h), row) && Emissions(h, row) == 0
  {
    row := Hi(2);
    HiReads(1);
    HiReads(2);
    h := EqualTextIsLost(Hi(1), row);
  }

  lemma ShownByCatchUp() returns (h: seq<WorldEvent>, row: Row)
    ensures row == Hi(1) && ParseVisitorMessage(row.dto) == Some(Parsed(1, "agent", "hi")) && Coherent(row)
    ensures Passed(WorldAfter(h), row) && Frames(h, row) == 0 && Emissions(h, row) == 1
  {
    row := Hi(1);
    HiReads(1);
    WorldSnoc([], Append(row), row);
    h := [] + [Append(row)];
    var w := WorldAfter(h);
    assert w.table == [row] && w.client == Session.START;
    h := CatchesUp(h, row);
    PageOfOne(row);
    ShowsOrNot(w.client, row, Parsed(1, "agent", "hi"));
  }

  /** A message caught up with before its frame comes is shown again by the frame. */
  lemma MessageCanBeShownTwice() returns (h: seq<WorldEvent>, row: Row)
    ensures Passed(WorldAfter(h), row) && Frames(h, row) == 1 && Emissions(h, row) == 2
  {
    h, row := ShownByCatchUp();
    WorldSnoc(h, Broadcast(row), row);
    FrameIsShown(WorldAfter(h), row);
    ClientKeepsHandled(WorldAfter(h).client, Incoming(Agent, false, "hi"));
    h := h + [Broadcast(row)];
  }

  /**
   * A message's own frame puts the key of the stored message into the window if and only if frame and
   * store use the same word for its sender and its text was stored as it was sent.
   */
  lemma OwnFrameCounts(row: Row)
    requires ParseVisitorMessage(row.dto).Some? && '|' !in Meaning(row).sender
    ensures Key(FrameWord(Meaning(row).sender), row.sent) == Key(Meaning(row).sender, Meaning(row).content)
            <==> HasFrames(Meaning(row).sender) && row.sent == Meaning(row).content
  {
    var p := Meaning(row);
    WordsHaveNoBar(SenderTypeOf(p.sender), p.sender == "ai");
    if Key(FrameWord(p.sender), row.sent) == Key(p.sender, p.content) {
      SameSender(FrameWord(p.sender), row.sent, p.sender, p.content);
    }
  }

  /** So a message that was trimmed is shown again by catch-up with its own frame still in the window. */
  lemma TrimmedIsShownAgain(row: Row) returns (h: seq<WorldEvent>)
    requires Coherent(row) && ParseVisitorMessage(row.dto).Some? && '|' !in Meaning(row).sender
    requires row.sent != Meaning(row).content
    ensures Passed(WorldAfter(h), row) && Frames(h, row) == 1 && Emissions(h, row) == 2
    ensures Key(FrameWord(Meaning(row).sender), row.sent) in WorldAfter(h).client.fingerprints
  {
    h := FrameThenStored(row, row);
    var w, p := WorldAfter(h), Meaning(row);
    h := CatchesUp(h, row);
    PageOfOne(row);
    OwnFrameCounts(row);
    ShowsOrNot(w.client, row, p);
  }

  function SpacedHi(id: nat): Row {
    Row(id, Dto(Some(Text.Decimal(id)), Some("customer"), Some("hi")), " hi")
  }

  lemma SpacedHiReads(id: nat)
    requires 1 <= id <= Text.MAX_SAFE_INTEGER
    ensures ParseVisitorMessage(SpacedHi(id).dto) == Some(Parsed(id, "customer", "hi")) && Coherent(SpacedHi(id))
  {
    ServerRowsParse(id, "customer", "hi");
    HiIsTrimmed();
  }

  /** A visitor's text with a space before it is such a message. */
  lemma LeadingSpaceIsShownAgain() returns (h: seq<WorldEvent>, row: Row)
    ensures row.sent == " hi" && Passed(WorldAfter(h), row) && Frames(h, row) == 1 && Emissions(h, row) == 2
  {
    row := SpacedHi(1);
    SpacedHiReads(1);
    assert |row.sent| == 3 && |Meaning(row).content| == 2;
    h := TrimmedIsShownAgain(row);
  }

  /** The client after a catch-up with one message. */
  lemma ShowsOrNot(s: State, row: Row, p: Parsed)
    requires !s.inFlight && s.outstanding == [] && s.cursor == None && ServedOf(s.log) == []
    requires ParseVisitorMessage(row.dto) == Some(p) && p.numericId == row.id
    ensures var t := Session.Step(Session.Step(s, Connected), PageArrives(0, Page([row.dto], false)));
            && t.cursor == Some(row.id) && t.fingerprints == s.fingerprints
            && Times(ServedOf(t.log), row.id) == if Key(p.sender, p.content) in s.fingerprints then 0 else 1
  {
    var u, ds := Session.Step(s, Connected), [row.dto];
    OnPageLog(u, 0, ds, false);
    PageServes(u, ds);
    assert ds[1..] == [] && [p][1..] == [];
    assert TakeAll(u, ds) == Take(u, p);
    assert Readables(ds) == [p] && Init([p]) == [];
  }
}
