/** The stateful stand-in for the knowledge service: documents uploaded, removed and searched. */
module Knowledge {
  import opened Common
  import Text

  datatype Document = Document(id: string, kb: string, title: string, content: string)

  /** Documents by id, and the number of ids issued. */
  datatype State = State(docs: map<string, Document>, issued: nat)

  datatype Event =
    | Upload(kb: string, title: string, content: string)
    | Remove(kb: string, id: string)

  const EMPTY := State(map[], 0)

  // ---- one step -------------------------------------------------------------------------------

  function IdOf(n: nat): string {
    "weknora-mock-doc-" + Text.Decimal(n)
  }

  predicate Blank(s: string) {
    Text.Trim(s, Text.IsGoSpace) == ""
  }

  function Step(s: State, e: Event): State {
    match e
    case Upload(kb, title, content) =>
      if Blank(title) then s
      else
        var id := IdOf(s.issued + 1);
        State(s.docs[id := Document(id, kb, title, content)], s.issued + 1)
    case Remove(kb, id) =>
      if id in s.docs && s.docs[id].kb == kb then s.(docs := s.docs - {id}) else s
  }

  function StateAfter(h: seq<Event>): State {
    if h == [] then EMPTY else Step(StateAfter(Init(h)), Last(h))
  }

  lemma IdsAreDistinct(m: nat, n: nat)
    ensures IdOf(m) == IdOf(n) ==> m == n
  {
    if IdOf(m) == IdOf(n) {
      var front := "weknora-mock-doc-";
      assert IdOf(m)[|front|..] == Text.Decimal(m) && IdOf(n)[|front|..] == Text.Decimal(n);
      Text.DecimalInjective(m, n);
    }
  }

  lemma LaterIdsDiffer(m: nat, n: nat)
    requires m < n
    ensures IdOf(m) != IdOf(n)
  {
    IdsAreDistinct(m, n);
  }

  // ---- what is in the store -----------------------------------------------------------------------

  /** The number that goes into the id of the upload at `i`. */
  function Ordinal(h: seq<Event>, i: nat): nat
    requires i <= |h|
  {
    StateAfter(h[..i]).issued + 1
  }

  /** The document the upload at `i` made, with the id it was given. */
  function Made(h: seq<Event>, i: nat): Document
    requires i < |h| && h[i].Upload?
  {
    Document(IdOf(Ordinal(h, i)), h[i].kb, h[i].title, h[i].content)
  }

  predicate Accepted(h: seq<Event>, i: nat) {
    i < |h| && h[i].Upload? && !Blank(h[i].title)
  }

  /** The upload at `i` was accepted, and nothing after it asked its own base to remove it. */
  predicate Stands(h: seq<Event>, i: nat) {
    Accepted(h, i) && forall j :: i < j < |h| ==> h[j] != Remove(h[i].kb, Made(h, i).id)
  }

  lemma PrefixOfInit(h: seq<Event>, i: nat)
    requires h != [] && i < |h|
    ensures Init(h)[..i] == h[..i]
  {
  }

  lemma {:induction false} OrdinalsGrow(h: seq<Event>, i: nat, j: nat)
    requires i <= j <= |h|
    ensures Ordinal(h, i) <= Ordinal(h, j)
    ensures i < j && Accepted(h, i) ==> Ordinal(h, i) < Ordinal(h, j)
    decreases j
  {
    if i < j {
      OrdinalsGrow(h, i, j - 1);
      assert Init(h[..j]) == h[..j - 1] && Last(h[..j]) == h[j - 1];
    }
  }

  /** Ids are never reissued: no upload gets the id of one before it. */
  lemma IdsAreFresh(h: seq<Event>, i: nat, j: nat)
    requires i < j < |h| && Accepted(h, i) && h[j].Upload?
    ensures Made(h, i).id != Made(h, j).id
  {
    OrdinalsGrow(h, i, j);
    LaterIdsDiffer(Ordinal(h, i), Ordinal(h, j));
  }

  function AcceptedCount(h: seq<Event>): nat {
    if h == [] then 0 else AcceptedCount(Init(h)) + if Accepted(h, |h| - 1) then 1 else 0
  }

  /** Ids are numbered without gaps: the n-th accepted upload gets number n. */
  lemma {:induction false} UploadsAreNumbered(h: seq<Event>, i: nat)
    requires i <= |h|
    ensures Ordinal(h, i) == AcceptedCount(h[..i]) + 1
    decreases i
  {
    if i > 0 {
      UploadsAreNumbered(h, i - 1);
      assert Init(h[..i]) == h[..i - 1] && Last(h[..i]) == h[i - 1];
    }
  }

  lemma MadeInInit(h: seq<Event>, i: nat)
    requires h != [] && i < |h| - 1 && h[i].Upload?
    ensures Made(h, i) == Made(Init(h), i)
  {
    PrefixOfInit(h, i);
  }

  lemma StandsInInit(h: seq<Event>, i: nat)
    requires h != [] && i < |h| - 1 && h[i].Upload?
    ensures Made(h, i) == Made(Init(h), i)
    ensures Stands(h, i) <==> Stands(Init(h), i) && Last(h) != Remove(h[i].kb, Made(h, i).id)
  {
    MadeInInit(h, i);
    var r := Remove(h[i].kb, Made(h, i).id);
    assert forall j :: i < j < |h| ==> (h[j] != r <==> if j < |h| - 1 then Init(h)[j] != r else Last(h) != r);
  }

  /**
   * At every point of every run the store holds exactly the documents of the accepted uploads that no
   * later request removed from their own base, each under its own id.
   */
  lemma {:induction false} StoreHoldsWhatStands(h: seq<Event>)
    ensures forall i :: 0 <= i < |h| && Stands(h, i) ==>
              Made(h, i).id in StateAfter(h).docs && StateAfter(h).docs[Made(h, i).id] == Made(h, i)
    ensures forall id :: id in StateAfter(h).docs ==>
              exists i :: 0 <= i < |h| && Stands(h, i) && id == Made(h, i).id
  {
    if h != [] {
      var g := Init(h);
      StoreHoldsWhatStands(g);
      forall i | 0 <= i < |h| && Stands(h, i)
        ensures Made(h, i).id in StateAfter(h).docs && StateAfter(h).docs[Made(h, i).id] == Made(h, i)
      {
        StaysWhereItStands(h, i);
      }
      forall id | id in StateAfter(h).docs
        ensures exists i :: 0 <= i < |h| && Stands(h, i) && id == Made(h, i).id
      {
        CameFromUpload(h, id);
      }
    }
  }

  /** A document outlives every step but its own removal and an upload under its id. */
  lemma StepKeeps(s: State, e: Event, d: Document)
    requires d.id in s.docs && s.docs[d.id] == d && e != Remove(d.kb, d.id)
    requires e.Upload? ==> d.id != IdOf(s.issued + 1)
    ensures d.id in Step(s, e).docs && Step(s, e).docs[d.id] == d
  {
  }

  lemma StaysWhereItStands(h: seq<Event>, i: nat)
    requires h != [] && Stands(h, i)
    requires i < |h| - 1 ==> Stands(Init(h), i) ==>
               Made(Init(h), i).id in StateAfter(Init(h)).docs
               && StateAfter(Init(h)).docs[Made(Init(h), i).id] == Made(Init(h), i)
    ensures Made(h, i).id in StateAfter(h).docs && StateAfter(h).docs[Made(h, i).id] == Made(h, i)
  {
    var n := |h| - 1;
    assert h[..n] == Init(h);
    if i < n {
      StandsInInit(h, i);
      if Last(h).Upload? {
        IdsAreFresh(h, i, n);
      }
      StepKeeps(StateAfter(Init(h)), Last(h), Made(h, i));
    }
  }

  lemma CameFromUpload(h: seq<Event>, id: string)
    requires h != [] && id in StateAfter(h).docs
    requires id in StateAfter(Init(h)).docs ==>
               exists i :: 0 <= i < |Init(h)| && Stands(Init(h), i) && id == Made(Init(h), i).id
                           && StateAfter(Init(h)).docs[id] == Made(Init(h), i)
    ensures exists i :: 0 <= i < |h| && Stands(h, i) && id == Made(h, i).id
  {
    var g, n := Init(h), |h| - 1;
    assert h[..n] == g;
    if id in StateAfter(g).docs && !(Accepted(h, n) && id == Made(h, n).id) {
      var i :| 0 <= i < |g| && Stands(g, i) && id == Made(g, i).id && StateAfter(g).docs[id] == Made(g, i);
      StandsInInit(h, i);
      assert Stands(h, i);
    } else {
      assert Stands(h, n) && id == Made(h, n).id;
    }
  }

  // ---- order of ids ---------------------------------------------------------------------------------

  /** The order `sort.Strings` sorts by. */
  predicate Less(a: string, b: string) {
    b != "" && (a == "" || a[0] < b[0] || (a[0] == b[0] && Less(a[1..], b[1..])))
  }

  lemma {:induction false} LessIsTotal(a: string, b: string)
    ensures Less(a, b) || a == b || Less(b, a)
    ensures Less(a, b) ==> a != b && !Less(b, a)
  {
    if a != "" && b != "" && a[0] == b[0] {
      LessIsTotal(a[1..], b[1..]);
      assert a == [a[0]] + a[1..] && b == [b[0]] + b[1..];
    }
  }

  lemma {:induction false} LessIsTransitive(a: string, b: string, c: string)
    requires Less(a, b) && Less(b, c)
    ensures Less(a, c)
  {
    if a != "" && a[0] == b[0] == c[0] {
      LessIsTransitive(a[1..], b[1..], c[1..]);
    }
  }

  predicate Sorted(ids: seq<string>) {
    forall i, j :: 0 <= i < j < |ids| ==> Less(ids[i], ids[j])
  }

  /** The keys in order, each once. */
  ghost predicate IsSorting(ids: seq<string>, keys: set<string>) {
    Sorted(ids) && forall id :: id in ids <==> id in keys
  }

  lemma SortedTail(ids: seq<string>, keys: set<string>)
    requires ids != [] && IsSorting(ids, keys)
    ensures ids[0] in keys && IsSorting(ids[1..], keys - {ids[0]})
    ensures forall id :: id in keys && id != ids[0] ==> Less(ids[0], id)
  {
    forall id | id in keys && id != ids[0]
      ensures id in ids[1..] && Less(ids[0], id)
    {
      var i :| 0 <= i < |ids| && ids[i] == id;
      assert ids[1..][i - 1] == id;
    }
    forall i | 0 <= i < |ids[1..]|
      ensures ids[1..][i] in keys - {ids[0]}
    {
      assert ids[i + 1] in ids;
      LessIsTotal(ids[0], ids[i + 1]);
    }
  }

  lemma SortingOfNothing(ids: seq<string>, keys: set<string>)
    requires IsSorting(ids, keys)
    ensures ids == [] <==> keys == {}
  {
    if ids != [] {
      assert ids[0] in ids;
    }
  }

  /** There is one sorting, whatever the order in which the map gave its keys. */
  lemma {:induction false} SortingIsUnique(ids: seq<string>, ids': seq<string>, keys: set<string>)
    requires IsSorting(ids, keys) && IsSorting(ids', keys)
    ensures ids == ids'
    decreases |ids|
  {
    SortingOfNothing(ids, keys);
    SortingOfNothing(ids', keys);
    if ids != [] {
      SortedTail(ids, keys);
      SortedTail(ids', keys);
      LessIsTotal(ids[0], ids'[0]);
      SortingIsUnique(ids[1..], ids'[1..], keys - {ids[0]});
      assert ids == [ids[0]] + ids[1..] && ids' == [ids'[0]] + ids'[1..];
    }
  }

  /** A sorted list with `id`, which it does not have, in its place. */
  function Inserted(ids: seq<string>, id: string): seq<string> {
    if ids == [] || Less(id, ids[0]) then [id] + ids else [ids[0]] + Inserted(ids[1..], id)
  }

  lemma {:induction false} InsertedIsSorted(ids: seq<string>, id: string)
    requires Sorted(ids) && id !in ids
    ensures Sorted(Inserted(ids, id))
    ensures forall x :: x in Inserted(ids, id) <==> x in ids || x == id
  {
    if ids == [] {
    } else if Less(id, ids[0]) {
      forall j | 0 < j < |ids|
        ensures Less(id, ids[j])
      {
        LessIsTransitive(id, ids[0], ids[j]);
      }
    } else {
      InsertedIsSorted(ids[1..], id);
      assert ids[0] in ids && forall x :: x in ids[1..] ==> x in ids;
      LessIsTotal(id, ids[0]);
      FrontOfSorted(ids, id);
      assert forall x :: x in ids <==> x == ids[0] || x in ids[1..];
    }
  }

  lemma FrontOfSorted(ids: seq<string>, id: string)
    requires ids != [] && Sorted(ids) && Less(ids[0], id)
    requires Sorted(Inserted(ids[1..], id))
    requires forall x :: x in Inserted(ids[1..], id) <==> x in ids[1..] || x == id
    ensures Sorted([ids[0]] + Inserted(ids[1..], id))
  {
    var rest := Inserted(ids[1..], id);
    forall j | 0 <= j < |rest|
      ensures Less(ids[0], rest[j])
    {
      assert rest[j] in rest;
      if rest[j] != id {
        var k :| 0 <= k < |ids[1..]| && ids[1..][k] == rest[j];
        assert ids[k + 1] == rest[j];
      }
    }
  }

  // ---- search ------------------------------------------------------------------------------------------

  function LowerAll(s: string, lower: char -> char): string {
    seq(|s|, i requires 0 <= i < |s| => lower(s[i]))
  }

  function Wanted(query: string, lower: char -> char): string {
    LowerAll(Text.Trim(query, Text.IsGoSpace), lower)
  }

  predicate Matches(d: Document, kb: string, wanted: string, lower: char -> char) {
    d.kb == kb && (wanted == "" || Contains(LowerAll(d.title + "\n" + d.content, lower), wanted))
  }

  /** The matching documents in the order of `ids`. */
  function Selected(ids: seq<string>, docs: map<string, Document>, kb: string, wanted: string,
                    lower: char -> char): seq<Document>
    requires forall id :: id in ids ==> id in docs
  {
    if ids == [] then []
    else
      var front := Selected(Init(ids), docs, kb, wanted, lower);
      if Matches(docs[Last(ids)], kb, wanted, lower) then front + [docs[Last(ids)]] else front
  }

  function AtMost(n: int): nat {
    if n <= 0 then 10 else n
  }

  function First<T>(s: seq<T>, n: nat): seq<T> {
    if |s| <= n then s else s[..n]
  }

  lemma {:induction false} SelectedGrows(ids: seq<string>, k: nat, docs: map<string, Document>, kb: string,
                                         wanted: string, lower: char -> char)
    requires k <= |ids| && forall id :: id in ids ==> id in docs
    ensures Selected(ids[..k], docs, kb, wanted, lower) <= Selected(ids, docs, kb, wanted, lower)
    decreases |ids|
  {
    if k == |ids| {
      assert ids[..k] == ids;
    } else {
      assert Init(ids)[..k] == ids[..k];
      assert forall id :: id in Init(ids) ==> id in ids;
      SelectedGrows(Init(ids), k, docs, kb, wanted, lower);
    }
  }

  lemma {:induction false} LowerOfSlice(s: string, i: nat, j: nat, lower: char -> char)
    requires i <= j <= |s|
    ensures LowerAll(s[i..j], lower) == LowerAll(s, lower)[i..j]
  {
  }

  lemma {:induction false} LeftTrimIsSuffix(s: string)
    ensures var t := Text.TrimLeft(s, Text.IsGoSpace);
            |t| <= |s| && t == s[|s| - |t|..]
  {
    if s != "" && Text.IsGoSpace(s[0]) {
      LeftTrimIsSuffix(s[1..]);
    }
  }

  lemma {:induction false} RightTrimIsPrefix(s: string)
    ensures Text.TrimRight(s, Text.IsGoSpace) <= s
  {
    if s != "" && Text.IsGoSpace(Last(s)) {
      RightTrimIsPrefix(Init(s));
    }
  }

  lemma TrimIsSlice(s: string) returns (k: nat)
    ensures var t := Text.Trim(s, Text.IsGoSpace);
            k + |t| <= |s| && t == s[k..k + |t|]
  {
    var t := Text.TrimLeft(s, Text.IsGoSpace);
    LeftTrimIsSuffix(s);
    RightTrimIsPrefix(t);
    k := |s| - |t|;
  }

  lemma SliceOccurs(s: string, sub: string, i: int, a: nat, b: nat)
    requires OccursAt(s, sub, i) && a <= b <= |sub|
    ensures OccursAt(s, sub[a..b], i + a)
  {
    forall k | 0 <= k < b - a
      ensures s[i + a..i + b][k] == sub[a..b][k]
    {
      assert s[i..i + |sub|][a + k] == sub[a + k];
    }
  }

  /** A text found with its outer space is found without it. */
  lemma TrimmedOccurs(s: string, query: string, lower: char -> char)
    requires Contains(LowerAll(s, lower), LowerAll(query, lower))
    ensures Contains(LowerAll(s, lower), Wanted(query, lower))
  {
    var l, q := LowerAll(s, lower), LowerAll(query, lower);
    var i: int :| 0 <= i <= |l| && OccursAt(l, q, i);
    var k := TrimIsSlice(query);
    var t := Text.Trim(query, Text.IsGoSpace);
    LowerOfSlice(query, k, k + |t|, lower);
    SliceOccurs(l, q, i, k, k + |t|);
  }

  /** Each document is stored under its own id, as in every reachable state. */
  predicate WellKeyed(docs: map<string, Document>) {
    forall id :: id in docs ==> docs[id].id == id
  }

  lemma ReachableIsWellKeyed(h: seq<Event>)
    ensures WellKeyed(StateAfter(h).docs)
  {
    StoreHoldsWhatStands(h);
  }

  lemma {:induction false} SelectedAreListed(ids: seq<string>, docs: map<string, Document>, kb: string,
                                             wanted: string, lower: char -> char, d: Document)
    requires WellKeyed(docs) && forall id :: id in ids ==> id in docs
    ensures d in Selected(ids, docs, kb, wanted, lower)
            <==> d.id in ids && docs[d.id] == d && Matches(d, kb, wanted, lower)
  {
    if ids != [] {
      assert forall id :: id in ids <==> id in Init(ids) || id == Last(ids);
      SelectedAreListed(Init(ids), docs, kb, wanted, lower, d);
    }
  }

  predicate Surround(before: string, sub: string, after: string, s: string) {
    s == before + sub + after
  }

  /** A text occurs in another. */
  ghost predicate OccursIn(sub: string, s: string) {
    exists before, after :: Surround(before, sub, after, s)
  }

  lemma ContainsIsOccurrence(s: string, sub: string)
    ensures Contains(s, sub) <==> OccursIn(sub, s)
  {
    if Contains(s, sub) {
      var i: int :| 0 <= i <= |s| && OccursAt(s, sub, i);
      assert s == s[..i] + s[i..i + |sub|] + s[i + |sub|..];
      assert Surround(s[..i], sub, s[i + |sub|..], s);
    }
    if OccursIn(sub, s) {
      var before, after :| Surround(before, sub, after, s);
      assert OccursAt(s, sub, |before|);
    }
  }

  /**
   * What is selected: the listed documents of that base in whose title or content, letter case aside, the
   * query without its outer space occurs, and all of the base if nothing is left of the query.
   */
  lemma SelectedHoldQuery(ids: seq<string>, docs: map<string, Document>, kb: string, query: string,
                          lower: char -> char, d: Document)
    requires WellKeyed(docs) && forall id :: id in ids ==> id in docs
    ensures d in Selected(ids, docs, kb, Wanted(query, lower), lower)
            <==> d.id in ids && docs[d.id] == d && d.kb == kb
                 && (Blank(query) || OccursIn(LowerAll(Text.Trim(query, Text.IsGoSpace), lower),
                                              LowerAll(d.title + "\n" + d.content, lower)))
  {
    var wanted, text := Wanted(query, lower), LowerAll(d.title + "\n" + d.content, lower);
    SelectedAreListed(ids, docs, kb, wanted, lower, d);
    ContainsIsOccurrence(text, wanted);
    assert wanted == "" <==> Blank(query);
  }

  /**
   * A stored document that matches is among the results exactly if fewer than `limit` matching
   * documents come before it in the order of ids.
   */
  lemma FoundUnlessCrowdedOut(ids: seq<string>, p: nat, docs: map<string, Document>, kb: string,
                              wanted: string, lower: char -> char, limit: nat)
    requires IsSorting(ids, docs.Keys) && WellKeyed(docs) && p < |ids|
    requires Matches(docs[ids[p]], kb, wanted, lower)
    ensures docs[ids[p]] in First(Selected(ids, docs, kb, wanted, lower), limit)
            <==> |Selected(ids[..p], docs, kb, wanted, lower)| < limit
  {
    var d, all := docs[ids[p]], Selected(ids, docs, kb, wanted, lower);
    var before := Selected(ids[..p], docs, kb, wanted, lower);
    assert Init(ids[..p + 1]) == ids[..p] && Last(ids[..p + 1]) == ids[p];
    SelectedGrows(ids, p + 1, docs, kb, wanted, lower);
    assert before + [d] <= all && all[|before|] == d;
    if |before| < limit {
      assert First(all, limit)[|before|] == d;
    } else {
      assert First(all, limit) == before[..limit];
      SelectedAreListed(ids[..p], docs, kb, wanted, lower, d);
      SortedAreApart(ids, p);
      assert forall x :: x in before[..limit] ==> x in before;
    }
  }

  lemma SortedAreApart(ids: seq<string>, p: nat)
    requires Sorted(ids) && p < |ids|
    ensures ids[p] !in ids[..p]
  {
    forall i | 0 <= i < p
      ensures ids[..p][i] != ids[p]
    {
      LessIsTotal(ids[i], ids[p]);
    }
  }

  /**
   * As long as an upload stands, its document is found by every query that occurs in its text, letter
   * case and outer space of the query aside, unless `limit` matching documents come before it; once
   * it is removed, by none.
   */
  lemma UploadIsFound(h: seq<Event>, i: nat, query: string, lower: char -> char, ids: seq<string>, limit: int)
    requires Accepted(h, i)
    requires Contains(LowerAll(h[i].title + "\n" + h[i].content, lower), LowerAll(query, lower))
    requires IsSorting(ids, StateAfter(h).docs.Keys)
    ensures var d, docs, wanted := Made(h, i), StateAfter(h).docs, Wanted(query, lower);
            d in First(Selected(ids, docs, h[i].kb, wanted, lower), AtMost(limit))
            <==> Stands(h, i) && exists p ::
                   0 <= p < |ids| && ids[p] == d.id &&
                   |Selected(ids[..p], docs, h[i].kb, wanted, lower)| < (if limit > 0 then limit else 10)
  {
    var d, docs, wanted := Made(h, i), StateAfter(h).docs, Wanted(query, lower);
    ReachableIsWellKeyed(h);
    if Stands(h, i) {
      StoreHoldsWhatStands(h);
      var p :| 0 <= p < |ids| && ids[p] == d.id;
      TrimmedOccurs(h[i].title + "\n" + h[i].content, query, lower);
      FoundUnlessCrowdedOut(ids, p, docs, h[i].kb, wanted, lower, AtMost(limit));
      forall q | 0 <= q < |ids| && ids[q] == d.id
        ensures q == p
      {
        LessIsTotal(ids[p], ids[q]);
      }
    } else {
      FallenIsGone(h, i);
      SelectedAreListed(ids, docs, h[i].kb, wanted, lower, d);
    }
  }

  /** Nothing is stored under the id of an upload that no longer stands. */
  lemma FallenIsGone(h: seq<Event>, i: nat)
    requires Accepted(h, i) && !Stands(h, i)
    ensures Made(h, i).id !in StateAfter(h).docs
  {
    StoreHoldsWhatStands(h);
    var id := Made(h, i).id;
    if id in StateAfter(h).docs {
      var j :| 0 <= j < |h| && Stands(h, j) && id == Made(h, j).id;
      if i < j {
        IdsAreFresh(h, i, j);
      } else if j < i {
        IdsAreFresh(h, j, i);
      }
    }
  }

  // ---- the class -----------------------------------------------------------------------------------------

  datatype SearchOutcome = BaseRequired | Results(docs: seq<Document>)

  class Mock {
    var docs: map<string, Document>
    var issued: nat

    ghost function View(): State
      reads this
    {
      State(docs, issued)
    }

    constructor ()
      ensures View() == EMPTY
    {
      docs, issued := map[], 0;
    }

    method NextId() returns (id: string)
      modifies this`issued
      ensures issued == old(issued) + 1 && id == IdOf(issued)
    {
      issued := issued + 1;
      id := "weknora-mock-doc-" + Text.Decimal(issued);
    }

    method UploadDocument(kb: string, title: string, content: string) returns (id: Option<string>)
      modifies this
      ensures View() == Step(old(View()), Upload(kb, title, content))
      ensures id == if Blank(title) then None else Some(IdOf(issued))
    {
      if Text.Trim(title, Text.IsGoSpace) == "" {
        return None;
      }
      var fresh' := NextId();
      docs := docs[fresh' := Document(fresh', kb, title, content)];
      return Some(fresh');
    }

    /** Removing under the wrong base, or what is not there, changes nothing. */
    method RemoveDocument(kb: string, id: string) returns (ok: bool)
      modifies this
      ensures View() == Step(old(View()), Remove(kb, id))
      ensures ok <==> id in old(docs) && old(docs)[id].kb == kb
      ensures !ok ==> View() == old(View())
    {
      if id !in docs || docs[id].kb != kb {
        return false;
      }
      docs := docs - {id};
      return true;
    }

    method SortedIds() returns (ids: seq<string>)
      ensures IsSorting(ids, docs.Keys)
    {
      ids := [];
      var left := docs.Keys;
      while left != {}
        invariant left <= docs.Keys && IsSorting(ids, docs.Keys - left)
        decreases |left|
      {
        var id :| id in left;
        InsertedIsSorted(ids, id);
        ids := Inserted(ids, id);
        left := left - {id};
      }
    }

    /** The first `most` matching documents in the order of `ids`. */
    method Scan(ids: seq<string>, kb: string, wanted: string, most: nat, lower: char -> char)
      returns (found: seq<Document>)
      requires most > 0 && forall id :: id in ids ==> id in docs
      ensures found == First(Selected(ids, docs, kb, wanted, lower), most)
    {
      found := [];
      var i := 0;
      while i < |ids|
        invariant 0 <= i <= |ids|
        invariant found == Selected(ids[..i], docs, kb, wanted, lower) && |found| < most
      {
        assert Init(ids[..i + 1]) == ids[..i] && Last(ids[..i + 1]) == ids[i];
        SelectedGrows(ids, i + 1, docs, kb, wanted, lower);
        var doc := docs[ids[i]];
        i := i + 1;
        if doc.kb != kb {
          continue;
        }
        var haystack := LowerAll(doc.title + "\n" + doc.content, lower);
        if wanted != "" && !Contains(haystack, wanted) {
          continue;
        }
        found := found + [doc];
        if |found| >= most {
          return;
        }
      }
      assert ids[..|ids|] == ids;
    }

    method Search(kb: string, query: string, limit: int, lower: char -> char) returns (r: SearchOutcome)
      ensures r.BaseRequired? <==> kb == ""
      ensures r.Results? ==> ResultsAre(r.docs, kb, Wanted(query, lower), AtMost(limit), lower)
    {
      if kb == "" {
        return BaseRequired;
      }
      var most := if limit <= 0 then 10 else limit;
      var wanted := LowerAll(Text.Trim(query, Text.IsGoSpace), lower);
      var ids := SortedIds();
      var found := Scan(ids, kb, wanted, most, lower);
      forall ids' | IsSorting(ids', docs.Keys)
        ensures ids' == ids
      {
        SortingIsUnique(ids', ids, docs.Keys);
      }
      return Results(found);
    }

    /** The first `most` matches, whichever way the keys were sorted. */
    ghost predicate ResultsAre(found: seq<Document>, kb: string, wanted: string, most: nat, lower: char -> char)
      reads this
    {
      forall ids :: IsSorting(ids, docs.Keys) ==>
        found == First(Selected(ids, docs, kb, wanted, lower), most)
    }
  }
}
