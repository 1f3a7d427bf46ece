/**
 * The admin panel's reading of list responses: envelopes around a collection are taken off, its items
 * and figures picked out, and missing figures worked out. Figures are exact reals.
 */
module Envelope {
  import opened Common
  import Text

  /** A JavaScript number. */
  datatype Num = Finite(value: real) | Infinite(negative: bool) | NaN

  datatype Json =
    | Null
    | Bool(b: bool)
    | Number(n: Num)
    | Str(s: string)
    | Arr(items: seq<Json>)
    | Obj(fields: map<string, Json>)

  /** A property of a value; only objects have those asked for here. */
  function Field(j: Json, key: string): Option<Json> {
    if j.Obj? && key in j.fields then Some(j.fields[key]) else None
  }

  // ---- taking envelopes off -----------------------------------------------------------------------

  predicate HoldsCollection(j: Json) {
    j.Obj? && ("data" in j.fields || "items" in j.fields || "entries" in j.fields)
  }

  predicate IsEnvelope(j: Json) {
    j.Obj? && "data" in j.fields && HoldsCollection(j.fields["data"])
  }

  function Unwrap(j: Json): Json
    decreases j
  {
    if IsEnvelope(j) then Unwrap(j.fields["data"]) else j
  }

  /** The loop ends on every JSON tree, at what lies under all envelopes. */
  method UnwrapCollectionEnvelope(payload: Json) returns (current: Json)
    ensures current == Unwrap(payload) && !IsEnvelope(current)
  {
    current := payload;
    while IsEnvelope(current)
      invariant Unwrap(current) == Unwrap(payload)
      decreases current
    {
      current := current.fields["data"];
    }
  }

  lemma {:induction false} UnwrapReaches(j: Json)
    ensures !IsEnvelope(Unwrap(j))
    ensures Unwrap(Unwrap(j)) == Unwrap(j)
    ensures HoldsCollection(j) ==> HoldsCollection(Unwrap(j))
    decreases j
  {
    if IsEnvelope(j) {
      UnwrapReaches(j.fields["data"]);
    }
  }

  /** `n` layers of `{data: ...}` around a value. */
  function Wrapped(j: Json, n: nat): Json {
    if n == 0 then j else Obj(map["data" := Wrapped(j, n - 1)])
  }

  lemma {:induction false} LayersComeOff(j: Json, n: nat)
    requires HoldsCollection(j)
    ensures Unwrap(Wrapped(j, n)) == Unwrap(j) && HoldsCollection(Wrapped(j, n))
  {
    if n != 0 {
      LayersComeOff(j, n - 1);
    }
  }

  // ---- picking items and figures --------------------------------------------------------------------

  /** The first of `keys` under which there is an array. */
  function PickFrom(j: Json, keys: seq<string>): seq<Json> {
    if keys == [] then []
    else match Field(j, keys[0])
         case Some(Arr(items)) => items
         case _ => PickFrom(j, keys[1..])
  }

  function Pick(j: Json, keys: seq<string>): seq<Json> {
    if j.Arr? then j.items else PickFrom(j, keys)
  }

  method PickArray(payload: Json, keys: seq<string>) returns (items: seq<Json>)
    ensures items == Pick(payload, keys)
  {
    if payload.Arr? {
      return payload.items;
    }
    if !payload.Obj? {
      NothingToPick(payload, keys);
      return [];
    }
    var i := 0;
    while i < |keys|
      invariant 0 <= i <= |keys| && PickFrom(payload, keys[i..]) == PickFrom(payload, keys)
    {
      assert keys[i..][1..] == keys[i + 1..];
      if keys[i] in payload.fields && payload.fields[keys[i]].Arr? {
        return payload.fields[keys[i]].items;
      }
      i := i + 1;
    }
    return [];
  }

  lemma {:induction false} NothingToPick(j: Json, keys: seq<string>)
    requires !j.Obj?
    ensures PickFrom(j, keys) == []
  {
    if keys != [] {
      NothingToPick(j, keys[1..]);
    }
  }

  /** `number` is JavaScript's reading of a text as a number. */
  function ToFiniteNumber(value: Option<Json>, fallback: real, number: string -> Num): real {
    match value
    case Some(Number(Finite(x))) => x
    case Some(Str(s)) =>
      if Text.Trim(s, Text.IsJsSpace) != "" && number(s).Finite? then number(s).value else fallback
    case _ => fallback
  }

  function Ceil(x: real): int {
    -(-x).Floor
  }

  function PageCount(total: real, size: real): real {
    if size > 0.0 then Ceil(total / size) as real
    else if total > 0.0 then 1.0 else 0.0
  }

  datatype Paginated = Paginated(data: seq<Json>, total: real, page: real, pageSize: real, pages: real)

  function NormalizePaginated(payload: Json, keys: seq<string>, number: string -> Num): Paginated {
    var source := Unwrap(payload);
    var data := Pick(source, keys);
    var length := |data| as real;
    var total := ToFiniteNumber(Field(source, "total"),
                                ToFiniteNumber(Field(source, "count"), length, number), number);
    var page := ToFiniteNumber(Field(source, "page"), 1.0, number);
    var pageSize := ToFiniteNumber(Field(source, "page_size"), if data != [] then length else total, number);
    var pages := ToFiniteNumber(Field(source, "pages"), PageCount(total, pageSize), number);
    Paginated(data, total, page, pageSize, pages)
  }

  datatype Counted = Counted(count: real, items: seq<Json>)

  function NormalizeCounted(payload: Json, keys: seq<string>, number: string -> Num): Counted {
    var source := Unwrap(payload);
    var items := Pick(source, keys);
    var length := |items| as real;
    Counted(ToFiniteNumber(Field(source, "count"), ToFiniteNumber(Field(source, "total"), length, number), number),
            items)
  }

  // ---- envelopes do not matter ------------------------------------------------------------------------

  /** Any number of `{data: ...}` layers around a collection leaves both normal forms as they are. */
  lemma {:induction false} LayersDoNotMatter(j: Json, n: nat, keys: seq<string>, number: string -> Num)
    requires HoldsCollection(j)
    ensures NormalizePaginated(Wrapped(j, n), keys, number) == NormalizePaginated(j, keys, number)
    ensures NormalizeCounted(Wrapped(j, n), keys, number) == NormalizeCounted(j, keys, number)
  {
    LayersComeOff(j, n);
  }

  /** An object of fields that are no arrays but for one. */
  lemma {:induction false} PicksTheOneArray(j: Json, keys: seq<string>, key: string)
    requires j.Obj? && key in j.fields && j.fields[key].Arr?
    requires forall k :: k in j.fields && k != key ==> !j.fields[k].Arr?
    ensures PickFrom(j, keys) == if key in keys then j.fields[key].items else []
  {
    if keys != [] {
      PicksTheOneArray(j, keys[1..], key);
      assert key in keys <==> key == keys[0] || key in keys[1..];
    }
  }

  /** Around a bare array they vanish exactly if `data` is among the keys tried, or there is nothing in it. */
  lemma LayersAroundArray(items: seq<Json>, n: nat, keys: seq<string>, number: string -> Num)
    ensures NormalizePaginated(Wrapped(Arr(items), n), keys, number) == NormalizePaginated(Arr(items), keys, number)
            <==> n == 0 || "data" in keys || items == []
    ensures NormalizeCounted(Wrapped(Arr(items), n), keys, number) == NormalizeCounted(Arr(items), keys, number)
            <==> n == 0 || "data" in keys || items == []
  {
    if n > 0 {
      var one := Wrapped(Arr(items), 1);
      assert one == Obj(map["data" := Wrapped(Arr(items), 0)]);
      PicksTheOneArray(one, keys, "data");
      WrappedFurther(Arr(items), n - 1);
      LayersComeOff(one, n - 1);
      FiguresOfOneLayer(one);
    }
  }

  lemma {:induction false} WrappedFurther(j: Json, n: nat)
    ensures Wrapped(j, n + 1) == Wrapped(Wrapped(j, 1), n)
  {
    if n != 0 {
      WrappedFurther(j, n - 1);
    }
  }

  lemma FiguresOfOneLayer(j: Json)
    requires j.Obj? && j.fields.Keys == {"data"}
    ensures Field(j, "total") == None && Field(j, "count") == None && Field(j, "page") == None
    ensures Field(j, "page_size") == None && Field(j, "pages") == None
  {
    assert "data"[0] == 'd';
    assert "total"[0] == 't' && "count"[0] == 'c' && "page"[0] == 'p' && "page_size"[0] == 'p'
           && "pages"[0] == 'p';
  }

  /** An object is looked into exactly if its `data` is a record with one of three keys; otherwise it is read itself. */
  lemma LooksInside(fields: map<string, Json>, keys: seq<string>, number: string -> Num)
    ensures var j := Obj(fields);
            if "data" in fields && fields["data"].Obj? &&
               fields["data"].fields.Keys * {"data", "items", "entries"} != {} then
              && NormalizePaginated(j, keys, number) == NormalizePaginated(fields["data"], keys, number)
              && NormalizeCounted(j, keys, number) == NormalizeCounted(fields["data"], keys, number)
            else
              && NormalizePaginated(j, keys, number).data == PickFrom(j, keys)
              && NormalizeCounted(j, keys, number).items == PickFrom(j, keys)
  {
    if "data" in fields && fields["data"].Obj? {
      var known := fields["data"].fields.Keys * {"data", "items", "entries"};
      assert known != {} <==> "data" in known || "items" in known || "entries" in known;
    }
  }

  // ---- figures that are missing -------------------------------------------------------------------------

  lemma OnePage(n: real)
    requires n >= 0.0
    ensures PageCount(n, n) == if n > 0.0 then 1.0 else 0.0
  {
    if n > 0.0 {
      assert n / n == 1.0;
    }
  }

  /** A bare array is one page of all there is. */
  lemma BareArrayIsOnePage(items: seq<Json>, keys: seq<string>, number: string -> Num)
    ensures var n := |items| as real;
            && NormalizePaginated(Arr(items), keys, number) == Paginated(items, n, 1.0, n, if n > 0.0 then 1.0 else 0.0)
            && NormalizeCounted(Arr(items), keys, number) == Counted(n, items)
  {
    hide PageCount;
    OnePage(|items| as real);
  }

  /** What a figure of a response reads as: a finite number, or a text that reads as one; `None` if neither. */
  predicate Reads(j: Json, key: string, x: Option<real>, number: string -> Num)
    requires j.Obj?
  {
    var v := if key in j.fields then j.fields[key] else Null;
    match x
    case Some(r) =>
      v == Number(Finite(r)) ||
      (v.Str? && Text.Trim(v.s, Text.IsJsSpace) != "" && number(v.s) == Finite(r))
    case None =>
      !(v.Number? && v.n.Finite?) &&
      !(v.Str? && Text.Trim(v.s, Text.IsJsSpace) != "" && number(v.s).Finite?)
  }

  lemma ReadFigure(j: Json, key: string, x: Option<real>, fallback: real, number: string -> Num)
    requires j.Obj? && Reads(j, key, x, number)
    ensures ToFiniteNumber(Field(j, key), fallback, number) == if x.Some? then x.value else fallback
  {
  }

  function Or(x: Option<real>, fallback: real): real {
    if x.Some? then x.value else fallback
  }

  /**
   * Each figure of a response under no envelope is the one given, and otherwise worked out: the total
   * from the count or the items, the first page, a page as long as its items, and the least number of
   * pages that hold the total.
   */
  lemma FiguresAreRead(j: Json, keys: seq<string>, number: string -> Num, total: Option<real>, count: Option<real>,
                       page: Option<real>, size: Option<real>, pages: Option<real>)
    requires j.Obj? && !IsEnvelope(j)
    requires Reads(j, "total", total, number) && Reads(j, "count", count, number) && Reads(j, "page", page, number)
    requires Reads(j, "page_size", size, number) && Reads(j, "pages", pages, number)
    ensures var p, n := NormalizePaginated(j, keys, number), |PickFrom(j, keys)| as real;
            && p.data == PickFrom(j, keys)
            && p.total == Or(total, Or(count, n))
            && p.page == Or(page, 1.0)
            && p.pageSize == Or(size, if n > 0.0 then n else p.total)
            && if pages.Some? then p.pages == pages.value else ArePages(p.pages, p.total, p.pageSize)
  {
    var p, n := NormalizePaginated(j, keys, number), |PickFrom(j, keys)| as real;
    TotalIsRead(j, number, total, count, n);
    ReadFigure(j, "page", page, 1.0, number);
    ReadFigure(j, "page_size", size, if n > 0.0 then n else p.total, number);
    ReadFigure(j, "pages", pages, PageCount(p.total, p.pageSize), number);
    LeastPages(p.total, p.pageSize);
  }

  /** The count of a counted list is the one given, or else the total, or else the number of items. */
  lemma CountIsRead(j: Json, keys: seq<string>, number: string -> Num, total: Option<real>, count: Option<real>)
    requires j.Obj? && !IsEnvelope(j) && Reads(j, "total", total, number) && Reads(j, "count", count, number)
    ensures var c := NormalizeCounted(j, keys, number);
            c.items == PickFrom(j, keys) && c.count == Or(count, Or(total, |c.items| as real))
  {
    TotalIsRead(j, number, total, count, |PickFrom(j, keys)| as real);
  }

  /** The total, and the count of a counted list. */
  lemma TotalIsRead(j: Json, number: string -> Num, total: Option<real>, count: Option<real>, n: real)
    requires j.Obj? && Reads(j, "total", total, number) && Reads(j, "count", count, number)
    ensures ToFiniteNumber(Field(j, "total"), ToFiniteNumber(Field(j, "count"), n, number), number)
            == Or(total, Or(count, n))
    ensures ToFiniteNumber(Field(j, "count"), ToFiniteNumber(Field(j, "total"), n, number), number)
            == Or(count, Or(total, n))
  {
    ReadFigure(j, "total", total, Or(count, n), number);
    ReadFigure(j, "count", count, n, number);
    ReadFigure(j, "count", count, Or(total, n), number);
    ReadFigure(j, "total", total, n, number);
  }

  /** The least whole number of pages that hold the total; without a page size one, if there is any. */
  predicate ArePages(pages: real, total: real, size: real) {
    if size > 0.0 then (pages - 1.0) * size < total <= pages * size && pages.Floor as real == pages
    else pages == if total > 0.0 then 1.0 else 0.0
  }

  lemma LeastPages(total: real, size: real)
    ensures ArePages(PageCount(total, size), total, size)
  {
    if size > 0.0 {
      CeilHolds(total, size, total / size, Ceil(total / size) as real);
    }
  }

  lemma GrowsBy(a: real, d: real, x: real)
    requires d >= 0.0 && x > 0.0
    ensures (a + d) * x == a * x + d * x
    ensures d * x >= 0.0 && (d > 0.0 ==> d * x > 0.0)
  {
  }

  lemma CeilHolds(total: real, size: real, q: real, c: real)
    requires size > 0.0 && q == total / size && q <= c && c - 1.0 < q
    ensures (c - 1.0) * size < total <= c * size
  {
    DivideBack(total, size);
    GrowsBy(q, c - q, size);
    GrowsBy(c - 1.0, q - (c - 1.0), size);
    assert q * size == total;
  }

  // ---- normalising twice --------------------------------------------------------------------------------

  function Figure(x: real): Json {
    Number(Finite(x))
  }

  /** The normal form as the JSON value it is in JavaScript. */
  function PaginatedJson(p: Paginated): Json {
    Obj(map["data" := Arr(p.data), "total" := Figure(p.total), "page" := Figure(p.page),
            "page_size" := Figure(p.pageSize), "pages" := Figure(p.pages)])
  }

  function CountedJson(c: Counted): Json {
    Obj(map["count" := Figure(c.count), "items" := Arr(c.items)])
  }

  /** Normalising again changes nothing exactly if `data` is tried as a key, or there are no items. */
  lemma PaginatedTwice(p: Paginated, keys: seq<string>, number: string -> Num)
    ensures NormalizePaginated(PaginatedJson(p), keys, number) == p <==> "data" in keys || p.data == []
  {
    var j := PaginatedJson(p);
    assert Unwrap(j) == j;
    PicksTheOneArray(j, keys, "data");
    assert Field(j, "total") == Some(Figure(p.total)) && Field(j, "page") == Some(Figure(p.page));
    assert Field(j, "page_size") == Some(Figure(p.pageSize)) && Field(j, "pages") == Some(Figure(p.pages));
  }

  lemma CountedTwice(c: Counted, keys: seq<string>, number: string -> Num)
    ensures NormalizeCounted(CountedJson(c), keys, number) == c <==> "items" in keys || c.items == []
  {
    var j := CountedJson(c);
    assert Unwrap(j) == j;
    PicksTheOneArray(j, keys, "items");
    assert Field(j, "count") == Some(Figure(c.count));
  }

  // ---- page counts ----------------------------------------------------------------------------------------

  lemma Scale(a: real, b: real, x: real)
    requires x > 0.0
    ensures a <= b <==> a * x <= b * x
  {
    var d := b - a;
    assert b * x == a * x + d * x;
    if a <= b {
      assert d * x >= 0.0;
    } else {
      assert (a - b) * x > 0.0;
      assert d * x == -((a - b) * x);
    }
  }

  /** For whole numbers the fallback is the least number of pages that hold them all. */
  lemma PageCountIsLeast(total: int, size: int, p: int)
    requires size > 0
    ensures p * size >= total <==> p >= Ceil(total as real / size as real)
  {
    var q := total as real / size as real;
    DivideBack(total as real, size as real);
    Scale(q, p as real, size as real);
    assert (p * size) as real == p as real * size as real;
    assert p * size >= total <==> q <= p as real;
    CeilIsLeast(q, p);
  }

  lemma CeilIsLeast(x: real, p: int)
    ensures x <= p as real <==> p >= Ceil(x)
  {
  }

  /** Integer division as Go has it, towards zero. */
  function Quotient(a: int, b: int): int
    requires b != 0
  {
    if a >= 0 then a / b else -((-a) / b)
  }

  /** The page count of the server's list handlers. */
  function ServerPages(total: int, size: int): int {
    if size > 0 then Quotient(total + size - 1, size) else 0
  }

  lemma CeilByDivision(total: int, size: int)
    requires size > 0
    ensures Ceil(total as real / size as real) == (total + size - 1) / size
  {
    var c, d := Ceil(total as real / size as real), (total + size - 1) / size;
    DivisionBounds(total + size - 1, size);
    PageCountIsLeast(total, size, c);
    PageCountIsLeast(total, size, d);
    PageCountIsLeast(total, size, d - 1);
    assert (d - 1) * size == d * size - size;
  }

  lemma DivisionBounds(a: int, b: int)
    requires b > 0
    ensures a / b * b <= a < a / b * b + b
  {
  }

  /** Panel and server count pages alike exactly unless a negative total is rounded the other way. */
  lemma PanelAgreesWithServer(total: int, size: int)
    ensures PageCount(total as real, size as real) == ServerPages(total, size) as real
            <==> if size > 0 then total + size - 1 >= 0 || (total + size - 1) % size == 0 else total <= 0
  {
    if size > 0 {
      CeilByDivision(total, size);
      if total + size - 1 < 0 {
        NegativeQuotient(-(total + size - 1), size);
      }
    }
  }

  lemma NegativeQuotient(a: int, b: int)
    requires a > 0 && b > 0
    ensures (-a) / b == -(a / b) <==> (-a) % b == 0
  {
    var q, r := (-a) / b, (-a) % b;
    assert a == b * (-q) - r;
    if r == 0 {
      Exactly(a, b, -q, 0);
    } else {
      assert a == b * (-q - 1) + (b - r);
      Exactly(a, b, -q - 1, b - r);
    }
  }

  lemma Exactly(a: int, b: int, q: int, r: int)
    requires b > 0 && a == b * q + r && 0 <= r < b
    ensures a / b == q
  {
    var p, t := a / b, a % b;
    assert a == b * p + t;
    assert b * (p - q) == b * p - b * q;
    OnlyZero(b, p - q, r - t);
  }

  lemma OnlyZero(b: int, k: int, d: int)
    requires b > 0 && b * k == d && -b < d < b
    ensures k == 0
  {
  }
}
