/**
 * The comparison of two database schemas column by column: rows read into maps, the maps walked in
 * whatever order they give their keys, and the drift counted.
 */
module SchemaParity {
  import opened Common

  datatype Key = Key(table: string, column: string)

  datatype Shape = Shape(
    dataType: string,
    udtName: string,
    charMax: Option<int>,
    nullable: string,
    default: Option<string>,
    numericPrec: Option<int>,
    numScale: Option<int>)

  /** One row of `information_schema.columns`. */
  datatype Row = Row(key: Key, shape: Shape)

  type Columns = map<Key, Shape>

  function Differ(a: Shape, b: Shape): bool {
    || a.dataType != b.dataType || a.udtName != b.udtName
    || a.charMax != b.charMax || a.nullable != b.nullable || a.default != b.default
    || a.numericPrec != b.numericPrec || a.numScale != b.numScale
  }

  /** The field by field comparison leaves no field out. */
  lemma DifferIsInequality(a: Shape, b: Shape)
    ensures Differ(a, b) <==> a != b
  {
  }

  // ---- reading columns --------------------------------------------------------------------------

  /** The shape the rows give a column last, if they have it at all. */
  function LastShape(rows: seq<Row>, key: Key): Option<Shape> {
    if rows == [] then None
    else if Last(rows).key == key then Some(Last(rows).shape)
    else LastShape(Init(rows), key)
  }

  /** The columns of the model's tables and no others, each as its last row has it. */
  predicate AreColumns(cols: Columns, rows: seq<Row>, tables: set<string>) {
    && (forall key :: key in cols ==> key.table in tables && LastShape(rows, key) == Some(cols[key]))
    && (forall i :: 0 <= i < |rows| && rows[i].key.table in tables ==> rows[i].key in cols)
  }

  method ReadColumns(rows: seq<Row>, tables: set<string>) returns (cols: Columns)
    ensures AreColumns(cols, rows, tables)
  {
    cols := map[];
    var i := 0;
    while i < |rows|
      invariant 0 <= i <= |rows| && AreColumns(cols, rows[..i], tables)
    {
      assert Init(rows[..i + 1]) == rows[..i];
      var row := rows[i];
      i := i + 1;
      if row.key.table !in tables {
        continue;
      }
      cols := cols[row.key := row.shape];
    }
    assert rows[..i] == rows;
  }

  lemma {:induction false} ShapeHasRow(rows: seq<Row>, key: Key)
    ensures LastShape(rows, key).Some? <==> exists i :: 0 <= i < |rows| && rows[i].key == key
  {
    if rows != [] {
      ShapeHasRow(Init(rows), key);
      if LastShape(Init(rows), key).Some? {
        var i :| 0 <= i < |Init(rows)| && Init(rows)[i].key == key;
        assert rows[i].key == key;
      } else if Last(rows).key != key {
        forall i | 0 <= i < |rows|
          ensures rows[i].key != key
        {
          if i < |rows| - 1 {
            assert Init(rows)[i].key != key;
          }
        }
      } else {
        assert rows[|rows| - 1].key == key;
      }
    }
  }

  lemma ColumnsGiveShapes(cols: Columns, rows: seq<Row>, tables: set<string>, key: Key)
    requires AreColumns(cols, rows, tables) && key.table in tables
    ensures LastShape(rows, key) == if key in cols then Some(cols[key]) else None
  {
    ShapeHasRow(rows, key);
  }

  // ---- drift ------------------------------------------------------------------------------------

  function OnlyIn(a: Columns, b: Columns): set<Key> {
    a.Keys - b.Keys
  }

  /** Columns of both sides with different shapes. */
  function Mismatched(a: Columns, b: Columns): set<Key> {
    set key | key in a.Keys && key in b.Keys && a[key] != b[key]
  }

  function Drift(a: Columns, b: Columns, allowed: set<Key>): set<Key> {
    OnlyIn(a, b) + OnlyIn(b, a) + (Mismatched(a, b) - allowed)
  }

  datatype Finding =
    | MissingInAutomigrate(key: Key)
    | MissingInMigrated(key: Key)
    | Drifted(key: Key)

  /** What is to be said about a column; nothing if the sides agree on it or may disagree. */
  function FindingFor(key: Key, a: Columns, b: Columns, allowed: set<Key>): Option<Finding> {
    if key in a && key !in b then Some(MissingInAutomigrate(key))
    else if key in b && key !in a then Some(MissingInMigrated(key))
    else if key in a && key in b && a[key] != b[key] && key !in allowed then Some(Drifted(key))
    else None
  }

  /** What a finding says of the two sides. */
  predicate IsTrue(f: Finding, a: Columns, b: Columns, allowed: set<Key>) {
    match f
    case MissingInAutomigrate(key) => key in a && key !in b
    case MissingInMigrated(key) => key !in a && key in b
    case Drifted(key) => key in a && key in b && a[key] != b[key] && key !in allowed
  }

  /** What is said is true, and what is true is said. */
  lemma FindingsAreTrue(f: Finding, a: Columns, b: Columns, allowed: set<Key>)
    ensures FindingFor(f.key, a, b, allowed) == Some(f) <==> IsTrue(f, a, b, allowed)
  {
  }

  lemma FindingIsDrift(key: Key, a: Columns, b: Columns, allowed: set<Key>)
    ensures FindingFor(key, a, b, allowed).Some? <==> key in Drift(a, b, allowed)
    ensures FindingFor(key, a, b, allowed).Some? ==> FindingFor(key, a, b, allowed).value.key == key
  {
  }

  /** Swapping the sides changes neither the drift nor its size. */
  lemma DriftIsSymmetric(a: Columns, b: Columns, allowed: set<Key>)
    ensures Drift(a, b, allowed) == Drift(b, a, allowed)
    ensures Mismatched(a, b) == Mismatched(b, a)
  {
    assert Mismatched(a, b) == Mismatched(b, a);
  }

  /**
   * There is no drift exactly if both sides have the same columns and agree on each that is not on
   * the allowlist; the allowlist excuses no column that one side lacks.
   */
  lemma NoDrift(a: Columns, b: Columns, allowed: set<Key>)
    ensures Drift(a, b, allowed) == {}
            <==> a.Keys == b.Keys && forall key :: key in a.Keys && key !in allowed ==> a[key] == b[key]
  {
    if Drift(a, b, allowed) == {} {
      assert OnlyIn(a, b) <= Drift(a, b, allowed) && OnlyIn(b, a) <= Drift(a, b, allowed);
      assert forall key :: key in a.Keys ==> key in b.Keys;
      assert forall key :: key in b.Keys ==> key in a.Keys;
      forall key | key in a.Keys && key !in allowed
        ensures a[key] == b[key]
      {
        assert key !in Drift(a, b, allowed);
        assert key !in Mismatched(a, b);
      }
    }
  }

  // ---- counting in the order of a map ------------------------------------------------------------

  /** An order in which a map may give its keys: each once. */
  ghost predicate Enumerates(order: seq<Key>, keys: set<Key>) {
    && (forall i, j :: 0 <= i < j < |order| ==> order[i] != order[j])
    && forall key :: key in order <==> key in keys
  }

  function Count(order: seq<Key>, s: set<Key>): nat {
    if order == [] then 0
    else Count(Init(order), s) + (if Last(order) in s then 1 else 0)
  }

  lemma {:induction false} CountWithout(order: seq<Key>, s: set<Key>, key: Key)
    requires key !in order
    ensures Count(order, s) == Count(order, s - {key})
  {
    if order != [] {
      assert Last(order) in order && forall k :: k in Init(order) ==> k in order;
      CountWithout(Init(order), s, key);
    }
  }

  /** Counting along any order gives the size of the set. */
  lemma {:induction false} CountIsSize(order: seq<Key>, keys: set<Key>, s: set<Key>)
    requires Enumerates(order, keys) && s <= keys
    ensures Count(order, s) == |s|
    decreases |order|
  {
    if order == [] {
      assert s == {} by {
        assert forall key :: key in s ==> key in order;
      }
    } else {
      var last := Last(order);
      InitEnumerates(order, keys);
      CountIsSize(Init(order), keys - {last}, s - {last});
      CountWithout(Init(order), s, last);
      assert last in s ==> |s - {last}| == |s| - 1;
      assert last !in s ==> s - {last} == s;
    }
  }

  lemma InitEnumerates(order: seq<Key>, keys: set<Key>)
    requires order != [] && Enumerates(order, keys)
    ensures Enumerates(Init(order), keys - {Last(order)}) && Last(order) !in Init(order)
  {
    assert forall key :: key in order <==> key in Init(order) || key == Last(order);
  }

  /** What is reported along an order of columns. */
  function Findings(order: seq<Key>, a: Columns, b: Columns, allowed: set<Key>): seq<Finding> {
    if order == [] then []
    else
      match FindingFor(Last(order), a, b, allowed)
      case None => Findings(Init(order), a, b, allowed)
      case Some(f) => Findings(Init(order), a, b, allowed) + [f]
  }

  lemma {:induction false} FindingsAre(order: seq<Key>, a: Columns, b: Columns, allowed: set<Key>, f: Finding)
    ensures f in Findings(order, a, b, allowed)
            <==> f.key in order && FindingFor(f.key, a, b, allowed) == Some(f)
    ensures |Findings(order, a, b, allowed)| == Count(order, Drift(a, b, allowed))
  {
    if order != [] {
      FindingsAre(Init(order), a, b, allowed, f);
      FindingIsDrift(Last(order), a, b, allowed);
      assert f.key in order <==> f.key in Init(order) || f.key == Last(order);
    }
  }

  /** The first loop: columns the other side lacks, and mismatches, allowed or not. */
  method CompareShared(order: seq<Key>, a: Columns, b: Columns, allowed: set<Key>)
    returns (diffs: nat, skipped: nat, report: seq<Finding>)
    requires forall key :: key in order ==> key in a
    ensures diffs == Count(order, Drift(a, b, allowed))
    ensures skipped == Count(order, Mismatched(a, b) * allowed)
    ensures report == Findings(order, a, b, allowed)
  {
    diffs, skipped, report := 0, 0, [];
    ghost var drift, excused := Drift(a, b, allowed), Mismatched(a, b) * allowed;
    var i := 0;
    while i < |order|
      invariant 0 <= i <= |order|
      invariant diffs == Count(order[..i], drift) && skipped == Count(order[..i], excused)
      invariant report == Findings(order[..i], a, b, allowed)
    {
      assert Init(order[..i + 1]) == order[..i] && Last(order[..i + 1]) == order[i];
      var key := order[i];
      i := i + 1;
      FindingIsDrift(key, a, b, allowed);
      if key !in b {
        diffs := diffs + 1;
        report := report + [MissingInAutomigrate(key)];
        continue;
      }
      DifferIsInequality(a[key], b[key]);
      if Differ(a[key], b[key]) {
        if key in allowed {
          skipped := skipped + 1;
          continue;
        }
        diffs := diffs + 1;
        report := report + [Drifted(key)];
      }
    }
    assert order[..i] == order;
  }

  /** The keys of `order` that `a` has not. */
  function Beyond(order: seq<Key>, a: Columns): seq<Key> {
    if order == [] then []
    else if Last(order) in a then Beyond(Init(order), a)
    else Beyond(Init(order), a) + [Last(order)]
  }

  /** The second loop: columns of this side that the other lacks. */
  method CompareExtra(order: seq<Key>, a: Columns, b: Columns, ghost allowed: set<Key>)
    returns (diffs: nat, report: seq<Finding>)
    requires forall key :: key in order ==> key in b
    ensures diffs == Count(order, OnlyIn(b, a))
    ensures report == Findings(Beyond(order, a), a, b, allowed)
  {
    diffs, report := 0, [];
    var i := 0;
    while i < |order|
      invariant 0 <= i <= |order| && diffs == Count(order[..i], OnlyIn(b, a))
      invariant report == Findings(Beyond(order[..i], a), a, b, allowed)
    {
      assert Init(order[..i + 1]) == order[..i] && Last(order[..i + 1]) == order[i];
      var key := order[i];
      i := i + 1;
      if key !in a {
        diffs := diffs + 1;
        report := report + [MissingInMigrated(key)];
        ghost var beyond := Beyond(order[..i - 1], a);
        assert Init(beyond + [key]) == beyond && Last(beyond + [key]) == key;
      }
    }
    assert order[..i] == order;
  }

  lemma DriftInTwoParts(a: Columns, b: Columns, allowed: set<Key>)
    ensures |Drift(a, b, allowed)| == |Drift(a, b, allowed) * a.Keys| + |OnlyIn(b, a)|
  {
    var shared, extra := Drift(a, b, allowed) * a.Keys, OnlyIn(b, a);
    assert Drift(a, b, allowed) == shared + extra;
    assert shared * extra == {};
  }

  lemma {:induction false} CountWithin(order: seq<Key>, s: set<Key>, keys: set<Key>)
    requires forall key :: key in order ==> key in keys
    ensures Count(order, s) == Count(order, s * keys)
  {
    if order != [] {
      assert Last(order) in order && forall k :: k in Init(order) ==> k in order;
      CountWithin(Init(order), s, keys);
    }
  }

  lemma {:induction false} BeyondAre(order: seq<Key>, a: Columns, key: Key)
    ensures key in Beyond(order, a) <==> key in order && key !in a
  {
    if order != [] {
      BeyondAre(Init(order), a, key);
      assert key in order <==> key in Init(order) || key == Last(order);
    }
  }

  lemma {:induction false} CountBeyond(order: seq<Key>, a: Columns, b: Columns, allowed: set<Key>)
    requires forall key :: key in order ==> key in b
    ensures Count(Beyond(order, a), Drift(a, b, allowed)) == Count(order, OnlyIn(b, a))
  {
    if order != [] {
      var last, front := Last(order), Beyond(Init(order), a);
      assert last in order && forall k :: k in Init(order) ==> k in order;
      CountBeyond(Init(order), a, b, allowed);
      if last !in a {
        assert Init(front + [last]) == front && Last(front + [last]) == last;
      }
    }
  }

  /** Of every drifted column, and of no other, the two parts of the report say what is wrong. */
  lemma ReportIsComplete(orderA: seq<Key>, orderB: seq<Key>, a: Columns, b: Columns, allowed: set<Key>, f: Finding)
    requires Enumerates(orderA, a.Keys) && Enumerates(orderB, b.Keys)
    ensures f in Findings(orderA, a, b, allowed) + Findings(Beyond(orderB, a), a, b, allowed)
            <==> FindingFor(f.key, a, b, allowed) == Some(f)
    ensures |Findings(orderA, a, b, allowed)| == Count(orderA, Drift(a, b, allowed))
    ensures |Findings(Beyond(orderB, a), a, b, allowed)| == Count(orderB, OnlyIn(b, a))
  {
    CountBeyond(orderB, a, b, allowed);
    FindingsAre(orderA, a, b, allowed, f);
    FindingsAre(Beyond(orderB, a), a, b, allowed, f);
    BeyondAre(orderB, a, f.key);
    FindingIsDrift(f.key, a, b, allowed);
  }

  /** The two counts add up to the size of the drift. */
  lemma CountsAddUp(orderA: seq<Key>, orderB: seq<Key>, a: Columns, b: Columns, allowed: set<Key>)
    requires Enumerates(orderA, a.Keys) && Enumerates(orderB, b.Keys)
    ensures Count(orderA, Drift(a, b, allowed)) + Count(orderB, OnlyIn(b, a)) == |Drift(a, b, allowed)|
    ensures Count(orderA, Mismatched(a, b) * allowed) == |Mismatched(a, b) * allowed|
  {
    CountWithin(orderA, Drift(a, b, allowed), a.Keys);
    CountIsSize(orderA, a.Keys, Drift(a, b, allowed) * a.Keys);
    CountIsSize(orderA, a.Keys, Mismatched(a, b) * allowed);
    CountIsSize(orderB, b.Keys, OnlyIn(b, a));
    DriftInTwoParts(a, b, allowed);
  }

  /** So do the two parts of the report. */
  lemma ReportsAddUp(orderA: seq<Key>, orderB: seq<Key>, a: Columns, b: Columns, allowed: set<Key>)
    requires Enumerates(orderA, a.Keys) && Enumerates(orderB, b.Keys)
    ensures var report := Findings(orderA, a, b, allowed) + Findings(Beyond(orderB, a), a, b, allowed);
            && |report| == |Drift(a, b, allowed)|
            && forall f :: f in report <==> IsTrue(f, a, b, allowed)
  {
    var report := Findings(orderA, a, b, allowed) + Findings(Beyond(orderB, a), a, b, allowed);
    CountsAddUp(orderA, orderB, a, b, allowed);
    forall f: Finding
      ensures f in report <==> IsTrue(f, a, b, allowed)
    {
      FindingsAreTrue(f, a, b, allowed);
      ReportIsComplete(orderA, orderB, a, b, allowed, f);
    }
    ReportIsComplete(orderA, orderB, a, b, allowed, Drifted(Key("", "")));
  }

  /**
   * Whatever the orders of the two maps: the count is the size of the drift, exactly the drifted
   * columns are reported, each once and as what it is, and the comparison passes exactly if nothing
   * drifted.
   */
  method Compare(migrated: Columns, automigrated: Columns, allowed: set<Key>,
                 orderA: seq<Key>, orderB: seq<Key>)
    returns (ok: bool, diffs: nat, skipped: nat, report: seq<Finding>)
    requires Enumerates(orderA, migrated.Keys) && Enumerates(orderB, automigrated.Keys)
    ensures diffs == |Drift(migrated, automigrated, allowed)| == |report|
    ensures skipped == |Mismatched(migrated, automigrated) * allowed|
    ensures forall f :: f in report <==> IsTrue(f, migrated, automigrated, allowed)
    ensures ok <==> Drift(migrated, automigrated, allowed) == {}
  {
    var more: nat, rest: seq<Finding>;
    diffs, skipped, report := CompareShared(orderA, migrated, automigrated, allowed);
    more, rest := CompareExtra(orderB, migrated, automigrated, allowed);
    CountsAddUp(orderA, orderB, migrated, automigrated, allowed);
    ReportsAddUp(orderA, orderB, migrated, automigrated, allowed);
    diffs := diffs + more;
    report := report + rest;
    ok := diffs == 0;
  }

  /** The two databases agree on a column, or disagree on its shape with leave. */
  predicate Agrees(migrated: seq<Row>, automigrated: seq<Row>, key: Key, allowed: set<Key>) {
    var a, b := LastShape(migrated, key), LastShape(automigrated, key);
    a == b || (a.Some? && b.Some? && key in allowed)
  }

  lemma ColumnsAgree(a: Columns, b: Columns, migrated: seq<Row>, automigrated: seq<Row>,
                     tables: set<string>, allowed: set<Key>)
    requires AreColumns(a, migrated, tables) && AreColumns(b, automigrated, tables)
    ensures Drift(a, b, allowed) == {}
            <==> forall key: Key :: key.table in tables ==> Agrees(migrated, automigrated, key, allowed)
  {
    NoDrift(a, b, allowed);
    forall key: Key | key.table in tables
      ensures Agrees(migrated, automigrated, key, allowed)
              <==> (key in a <==> key in b) && (key in a && key in b && key !in allowed ==> a[key] == b[key])
    {
      ColumnsGiveShapes(a, migrated, tables, key);
      ColumnsGiveShapes(b, automigrated, tables, key);
    }
    if forall key: Key :: key.table in tables ==> Agrees(migrated, automigrated, key, allowed) {
      assert forall key :: key in a.Keys <==> key in b.Keys;
    }
  }

  /**
   * From the rows of both databases: the run succeeds exactly if they agree on every column of every
   * model table that is not on the allowlist; other tables do not matter.
   */
  method Run(migrated: seq<Row>, automigrated: seq<Row>, tables: set<string>, allowed: set<Key>)
    returns (ok: bool)
    ensures ok <==> forall key: Key :: key.table in tables ==> Agrees(migrated, automigrated, key, allowed)
  {
    var a := ReadColumns(migrated, tables);
    var b := ReadColumns(automigrated, tables);
    ColumnsAgree(a, b, migrated, automigrated, tables, allowed);
    var orderA := SomeOrder(a.Keys);
    var orderB := SomeOrder(b.Keys);
    var diffs, skipped, report;
    ok, diffs, skipped, report := Compare(a, b, allowed, orderA, orderB);
  }

  /** The order in which a map happens to give its keys. */
  method SomeOrder(keys: set<Key>) returns (order: seq<Key>)
    ensures Enumerates(order, keys)
  {
    order := [];
    var left := keys;
    while left != {}
      invariant left <= keys && Enumerates(order, keys - left)
      decreases |left|
    {
      var key :| key in left;
      assert key !in order;
      order := order + [key];
      left := left - {key};
    }
  }
}
