/**
 * The configuration tree as a value: looking up, setting and creating keys of a node whose children
 * alternate between keys and values, and the list of settings the load-test rewrite makes.
 */
module YamlTree {
  import opened Common

  datatype Kind = DocumentNode | SequenceNode | MappingNode | ScalarNode | AliasNode

  /** `note` stands for style, comments and anchor, which the rewrite only carries along. */
  datatype Tree = Tree(kind: Kind, tag: string, value: string, note: string, children: seq<Tree>)

  const EMPTY_MAPPING := Tree(MappingNode, "", "", "", [])

  function Scalar(tag: string, value: string): Tree {
    Tree(ScalarNode, tag, value, "", [])
  }

  function KeyNode(key: string): Tree {
    Scalar("!!str", key)
  }

  // ---- keys of one node -------------------------------------------------------------------------

  /** The first pair at or after `i` whose key is `key`; an odd last child is no pair. */
  function Find(c: seq<Tree>, key: string, i: nat): (r: Option<nat>)
    ensures r.Some? ==> i <= r.value && r.value + 1 < |c| && (r.value - i) % 2 == 0 && c[r.value].value == key
    decreases |c| - i
  {
    if i + 1 >= |c| then None
    else if c[i].value == key then Some(i)
    else Find(c, key, i + 2)
  }

  predicate Has(t: Tree, key: string) {
    Find(t.children, key, 0).Some?
  }

  /** Where the value of `key` is. */
  function At(t: Tree, key: string): (i: nat)
    requires Has(t, key)
    ensures i < |t.children|
  {
    Find(t.children, key, 0).value + 1
  }

  /** The value of a key; only a mapping has any. */
  function Get(t: Tree, key: string): Option<Tree> {
    if t.kind == MappingNode && Has(t, key) then Some(t.children[At(t, key)]) else None
  }

  function GetPath(t: Tree, path: seq<string>): Option<Tree> {
    if path == [] then Some(t)
    else match Get(t, path[0])
         case None => None
         case Some(c) => GetPath(c, path[1..])
  }

  function Put(t: Tree, i: nat, c: Tree): Tree
    requires i < |t.children|
  {
    t.(children := t.children[i := c])
  }

  function Append(t: Tree, key: string, c: Tree): Tree {
    t.(children := t.children + [KeyNode(key), c])
  }

  function SetNode(t: Tree, key: string, c: Tree): Tree {
    if Has(t, key) then Put(t, At(t, key), c) else Append(t, key, c)
  }

  /** An existing value keeps its kind, its note and even its children. */
  function SetScalar(t: Tree, key: string, value: string, tag: string): Tree {
    if Has(t, key) then Put(t, At(t, key), t.children[At(t, key)].(value := value, tag := tag))
    else Append(t, key, Scalar(tag, value))
  }

  /** The node with `key` in it: as it is if a mapping has it, with an empty mapping otherwise. */
  function Ensure(t: Tree, key: string): (r: Tree)
    ensures r.kind == t.kind && (t.kind == MappingNode && Has(t, key) ==> r == t)
  {
    if t.kind == MappingNode && Has(t, key) then t else SetNode(t, key, EMPTY_MAPPING)
  }

  /** The value `Ensure` hands out, and where it is. */
  function Section(t: Tree, key: string): nat {
    if Has(t, key) then At(t, key) else |t.children| + 1
  }

  lemma SectionIsThere(t: Tree, key: string)
    ensures Section(t, key) < |Ensure(t, key).children|
    ensures var c := Ensure(t, key).children[Section(t, key)];
            if Get(t, key).Some? then Get(t, key) == Some(c) else c == EMPTY_MAPPING
  {
  }

  /** The children come in pairs, as those of every mapping do. */
  predicate Even(t: Tree) {
    |t.children| % 2 == 0
  }

  /** Setting the key makes it found: it is there, or a pair can be appended to pairs. */
  predicate Room(t: Tree, key: string) {
    Even(t) || Has(t, key)
  }

  /** What is found depends on the keys alone. */
  lemma {:induction false} FindLooksAtKeys(c: seq<Tree>, d: seq<Tree>, key: string, i: nat)
    requires |c| == |d|
    requires forall m :: i <= m < |c| && (m - i) % 2 == 0 ==> c[m].value == d[m].value
    ensures Find(c, key, i) == Find(d, key, i)
    decreases |c| - i
  {
    if i + 1 < |c| {
      assert (i - i) % 2 == 0;
      FindLooksAtKeys(c, d, key, i + 2);
    }
  }

  lemma {:induction false} FindInAppended(c: seq<Tree>, key: string, k: string, v: Tree, i: nat)
    requires (|c| - i) % 2 == 0 && i <= |c|
    ensures Find(c + [KeyNode(k), v], key, i)
            == if Find(c, key, i).Some? then Find(c, key, i) else if key == k then Some(|c|) else None
    decreases |c| - i
  {
    var d := c + [KeyNode(k), v];
    if i == |c| {
      assert d[i] == KeyNode(k);
      assert Find(d, key, i + 2) == None;
    } else {
      assert i + 1 < |c| && d[i] == c[i];
      FindInAppended(c, key, k, v, i + 2);
    }
  }

  lemma PutKeepsKeys(t: Tree, key: string, i: nat, c: Tree)
    requires i < |t.children| && i % 2 == 1
    ensures Find(Put(t, i, c).children, key, 0) == Find(t.children, key, 0)
  {
    FindLooksAtKeys(t.children, Put(t, i, c).children, key, 0);
  }

  /** Distinct keys have their values at distinct odd positions. */
  lemma ValuesAreApart(t: Tree, key: string, key': string)
    requires Has(t, key) && Has(t, key')
    ensures At(t, key) % 2 == 1
    ensures key != key' ==> At(t, key) != At(t, key')
  {
  }

  // ---- settings -----------------------------------------------------------------------------------

  datatype Leaf = SetTo(key: string, value: string, tag: string) | Replace(key: string, node: Tree)

  function SetLeaf(t: Tree, l: Leaf): Tree {
    match l
    case SetTo(key, value, tag) => SetScalar(t, key, value, tag)
    case Replace(key, node) => SetNode(t, key, node)
  }

  function SetLeaves(t: Tree, ls: seq<Leaf>): Tree {
    if ls == [] then t else SetLeaf(SetLeaves(t, Init(ls)), Last(ls))
  }

  /** Settings below the section reached by `path`, whose missing parts are created. */
  datatype Settings = Settings(path: seq<string>, leaves: seq<Leaf>)

  function SetUnder(t: Tree, path: seq<string>, ls: seq<Leaf>): Tree
    decreases |path|
  {
    if path == [] then SetLeaves(t, ls)
    else
      SectionIsThere(t, path[0]);
      var u, i := Ensure(t, path[0]), Section(t, path[0]);
      Put(u, i, SetUnder(u.children[i], path[1..], ls))
  }

  function SetAll(t: Tree, es: seq<Settings>): Tree {
    if es == [] then t else SetUnder(SetAll(t, Init(es)), Last(es).path, Last(es).leaves)
  }

  predicate DistinctKeys(ls: seq<Leaf>) {
    forall i, j :: 0 <= i < j < |ls| ==> ls[i].key != ls[j].key
  }

  predicate DistinctSections(es: seq<Settings>) {
    && (forall i :: 0 <= i < |es| ==> es[i].path != [] && DistinctKeys(es[i].leaves))
    && (forall i, j :: 0 <= i < j < |es| ==> es[i].path[0] != es[j].path[0])
  }

  // ---- the load-test rewrite ------------------------------------------------------------------------

  function TrimSlash(url: string): string {
    if url != [] && Last(url) == '/' then Init(url) else url
  }

  /** One slash at the end of the address, and no more, makes no difference. */
  lemma TrailingSlashIsDropped(url: string)
    ensures TrimSlash(url + "/") == url
    ensures url != [] && url[|url| - 1] != '/' ==> TrimSlash(url) == url
  {
  }

  const ENTRY_LEAVES: seq<Leaf> := [
    SetTo("enabled", "true", "!!bool"),
    SetTo("prefix", "/api/", "!!str"),
    SetTo("requests_per_minute", "100000", "!!int"),
    SetTo("burst", "10000", "!!int")]

  function PathsNode(): Tree {
    Tree(SequenceNode, "", "", "", [SetLeaves(EMPTY_MAPPING, ENTRY_LEAVES)])
  }

  function RateLeaves(): seq<Leaf> {
    [SetTo("enabled", "true", "!!bool"),
     SetTo("requests_per_minute", "100000", "!!int"),
     SetTo("burst", "10000", "!!int"),
     Replace("paths", PathsNode())]
  }

  function ModelLeaves(mockURL: string): seq<Leaf> {
    [SetTo("api_key", "perf-not-a-real-key", "!!str"),
     SetTo("base_url", TrimSlash(mockURL) + "/v1", "!!str")]
  }

  const RATE_SETTINGS := Settings(["security", "rate_limiting"], RateLeaves())
  const UPLOAD_SETTINGS := Settings(["upload"], [SetTo("provider", "local", "!!str")])
  const KNOWLEDGE_SETTINGS := Settings(["knowledge"], [SetTo("provider", "", "!!str")])

  function ModelSettings(mockURL: string): Settings {
    Settings(["ai", "openai"], ModelLeaves(mockURL))
  }

  /** All settings in the order they are made; the model settings only when there is a mock. */
  function LoadTestSettings(mockURL: string): seq<Settings> {
    if mockURL == "" then [RATE_SETTINGS, UPLOAD_SETTINGS, KNOWLEDGE_SETTINGS]
    else [RATE_SETTINGS, UPLOAD_SETTINGS, ModelSettings(mockURL), KNOWLEDGE_SETTINGS]
  }

  function Rewritten(t: Tree, mockURL: string): Tree {
    SetAll(t, LoadTestSettings(mockURL))
  }

  predicate Starts(l: Leaf, initial: char) {
    l.key != [] && l.key[0] == initial
  }

  lemma StartsApart(a: Leaf, b: Leaf, c: Leaf, d: Leaf)
    requires Starts(a, 'e') && Starts(b, 'r') && Starts(c, 'b') && Starts(d, 'p')
    ensures DistinctKeys([a, b, c, d])
  {
  }

  lemma RateLeavesAreDistinct()
    ensures DistinctKeys(RateLeaves())
  {
    StartsApart(SetTo("enabled", "true", "!!bool"), SetTo("requests_per_minute", "100000", "!!int"),
                SetTo("burst", "10000", "!!int"), Replace("paths", PathsNode()));
  }

  lemma ModelLeavesAreDistinct(mockURL: string)
    ensures DistinctKeys(ModelLeaves(mockURL))
  {
    var model := ModelLeaves(mockURL);
    assert model[0].key[0] == 'a' && model[1].key[0] == 'b';
  }

  /** The first letters of the sections' names tell them apart. */
  predicate Named(e: Settings, initial: char) {
    e.path != [] && e.path[0] != [] && e.path[0][0] == initial && DistinctKeys(e.leaves)
  }

  lemma SettingsAreNamed(mockURL: string)
    ensures Named(RATE_SETTINGS, 's') && Named(UPLOAD_SETTINGS, 'u')
    ensures Named(ModelSettings(mockURL), 'a') && Named(KNOWLEDGE_SETTINGS, 'k')
  {
    RateLeavesAreDistinct();
    ModelLeavesAreDistinct(mockURL);
  }

  lemma NamedApart(a: Settings, b: Settings, c: Settings, d: Settings)
    requires Named(a, 's') && Named(b, 'u') && Named(c, 'a') && Named(d, 'k')
    ensures DistinctSections([a, b, c, d]) && DistinctSections([a, b, d])
  {
  }

  lemma LoadTestSettingsAreDistinct(mockURL: string)
    ensures DistinctSections(LoadTestSettings(mockURL))
  {
    SettingsAreNamed(mockURL);
    NamedApart(RATE_SETTINGS, UPLOAD_SETTINGS, ModelSettings(mockURL), KNOWLEDGE_SETTINGS);
  }

  // ---- one setting ----------------------------------------------------------------------------------

  predicate IsSet(t: Tree, l: Leaf) {
    && Has(t, l.key)
    && (var c := t.children[At(t, l.key)];
        match l
        case SetTo(_, value, tag) => c.value == value && c.tag == tag
        case Replace(_, node) => c == node)
  }

  /** A node on which nothing was set differs from `t` in at most one place or two more at the end. */
  lemma SetLeafParts(t: Tree, l: Leaf)
    ensures var u := SetLeaf(t, l);
            && u == t.(children := u.children)
            && (if Has(t, l.key) then u == Put(t, At(t, l.key), u.children[At(t, l.key)])
                else u == Append(t, l.key, Last(u.children)))
  {
  }

  lemma SetLeafSets(t: Tree, l: Leaf)
    requires Room(t, l.key)
    ensures var u := SetLeaf(t, l); Even(u) == Even(t) && IsSet(u, l)
  {
    var u := SetLeaf(t, l);
    if Has(t, l.key) {
      ValuesAreApart(t, l.key, l.key);
      PutKeepsKeys(t, l.key, At(t, l.key), u.children[At(t, l.key)]);
    } else {
      FindInAppended(t.children, l.key, l.key, Last(u.children), 0);
    }
  }

  /** Setting one key leaves every other key where it is and what it is. */
  lemma SetLeafKeepsOthers(t: Tree, l: Leaf, key: string)
    requires Room(t, l.key) && key != l.key
    ensures var u := SetLeaf(t, l);
            && Has(u, key) == Has(t, key)
            && (Has(t, key) ==> At(u, key) == At(t, key) && u.children[At(t, key)] == t.children[At(t, key)])
  {
    var u := SetLeaf(t, l);
    if Has(t, l.key) {
      ValuesAreApart(t, l.key, l.key);
      PutKeepsKeys(t, key, At(t, l.key), u.children[At(t, l.key)]);
      if Has(t, key) {
        ValuesAreApart(t, key, l.key);
      }
    } else {
      FindInAppended(t.children, key, l.key, Last(u.children), 0);
    }
  }

  /** The node under a key, in a node of any kind. */
  function Child(t: Tree, key: string): Option<Tree> {
    if Has(t, key) then Some(t.children[At(t, key)]) else None
  }

  /** What a setting makes of the node that was there: an overwritten value keeps its kind. */
  function NodeAfter(was: Option<Tree>, l: Leaf): Tree {
    match l
    case SetTo(_, value, tag) => if was.Some? then was.value.(value := value, tag := tag) else Scalar(tag, value)
    case Replace(_, node) => node
  }

  lemma SetLeafGives(t: Tree, l: Leaf)
    requires Room(t, l.key)
    ensures Child(SetLeaf(t, l), l.key) == Some(NodeAfter(Child(t, l.key), l))
  {
    SetLeafSets(t, l);
    if Has(t, l.key) {
      ValuesAreApart(t, l.key, l.key);
      PutKeepsKeys(t, l.key, At(t, l.key), SetLeaf(t, l).children[At(t, l.key)]);
    } else {
      FindInAppended(t.children, l.key, l.key, Last(SetLeaf(t, l).children), 0);
    }
  }

  lemma SetAgain(t: Tree, l: Leaf)
    requires IsSet(t, l)
    ensures SetLeaf(t, l) == t
  {
    var i := At(t, l.key);
    assert t.children[i := t.children[i]] == t.children;
  }

  /**
   * Making one setting twice is making it once exactly when the key was there or the children come
   * in pairs: on an odd sequence where a section was expected, every run appends anew.
   */
  lemma SetTwice(t: Tree, l: Leaf)
    requires l.SetTo? ==> l.value != l.key
    requires l.Replace? ==> l.node != KeyNode(l.key)
    ensures SetLeaf(SetLeaf(t, l), l) == SetLeaf(t, l) <==> Has(t, l.key) || Even(t)
  {
    var u := SetLeaf(t, l);
    if Has(t, l.key) {
      ValuesAreApart(t, l.key, l.key);
      PutKeepsKeys(t, l.key, At(t, l.key), u.children[At(t, l.key)]);
      SetAgain(u, l);
    } else if Even(t) {
      SetLeafSets(t, l);
      SetAgain(u, l);
    } else if Has(u, l.key) {
      OddAppendFindsLast(t, l, |t.children|, 0);
      assert u.children[|t.children|] == KeyNode(l.key);
      assert SetLeaf(u, l).children[|t.children|] != KeyNode(l.key);
    } else {
      assert |SetLeaf(u, l).children| == |u.children| + 2;
    }
  }

  lemma {:induction false} OddAppendFindsLast(t: Tree, l: Leaf, n: nat, i: nat)
    requires n == |t.children| && n % 2 == 1 && i % 2 == 0 && i < n
    requires Find(t.children, l.key, i) == None
    ensures var d := t.children + [KeyNode(l.key), Last(SetLeaf(t, l).children)];
            Find(d, l.key, i).Some? ==> Find(d, l.key, i) == Some(n - 1)
    decreases n - i
  {
    var d := t.children + [KeyNode(l.key), Last(SetLeaf(t, l).children)];
    assert d[i] == t.children[i];
    if i + 1 < n {
      OddAppendFindsLast(t, l, n, i + 2);
    } else {
      assert Find(d, l.key, i + 2) == None;
    }
  }

  // ---- the settings of one section ------------------------------------------------------------------

  predicate AllRoom(t: Tree, ls: seq<Leaf>) {
    forall i :: 0 <= i < |ls| ==> Room(t, ls[i].key)
  }

  /** There is room for a setting when its turn comes. */
  lemma {:induction false} RoomComes(t: Tree, ls: seq<Leaf>)
    requires ls != [] && AllRoom(t, ls) && DistinctKeys(ls)
    ensures Room(SetLeaves(t, Init(ls)), Last(ls).key)
    decreases |ls|, 0
  {
    var key := Last(ls).key;
    assert Room(t, ls[|ls| - 1].key);
    RoomStays(t, Init(ls), key);
  }

  lemma {:induction false} RoomStays(t: Tree, ls: seq<Leaf>, key: string)
    requires Room(t, key) && AllRoom(t, ls) && DistinctKeys(ls)
    requires forall i :: 0 <= i < |ls| ==> ls[i].key != key
    ensures Room(SetLeaves(t, ls), key)
    decreases |ls|, 1
  {
    if ls != [] {
      var u := SetLeaves(t, Init(ls));
      RoomStays(t, Init(ls), key);
      RoomComes(t, ls);
      SetLeafSets(u, Last(ls));
      SetLeafKeepsOthers(u, Last(ls), key);
    }
  }

  lemma {:induction false} SetLeavesKind(t: Tree, ls: seq<Leaf>)
    ensures SetLeaves(t, ls).kind == t.kind
  {
    if ls != [] {
      SetLeavesKind(t, Init(ls));
    }
  }

  /** Every setting of a section is in force after all of them. */
  lemma {:induction false} SetLeavesSet(t: Tree, ls: seq<Leaf>, k: nat)
    requires AllRoom(t, ls) && DistinctKeys(ls) && k < |ls|
    ensures IsSet(SetLeaves(t, ls), ls[k])
  {
    var u := SetLeaves(t, Init(ls));
    RoomComes(t, ls);
    if k == |ls| - 1 {
      SetLeafSets(u, Last(ls));
    } else {
      SetLeavesSet(t, Init(ls), k);
      SetLeafKeepsOthers(u, Last(ls), ls[k].key);
    }
  }

  lemma {:induction false} SetLeavesKeepOthers(t: Tree, ls: seq<Leaf>, key: string)
    requires AllRoom(t, ls) && DistinctKeys(ls) && forall i :: 0 <= i < |ls| ==> ls[i].key != key
    ensures Child(SetLeaves(t, ls), key) == Child(t, key)
  {
    if ls != [] {
      SetLeavesKeepOthers(t, Init(ls), key);
      RoomComes(t, ls);
      SetLeafKeepsOthers(SetLeaves(t, Init(ls)), Last(ls), key);
    }
  }

  /** Under each key of a section stands what its setting makes of the node that was there at the start. */
  lemma {:induction false} SetLeavesGive(t: Tree, ls: seq<Leaf>, k: nat)
    requires AllRoom(t, ls) && DistinctKeys(ls) && k < |ls|
    ensures Child(SetLeaves(t, ls), ls[k].key) == Some(NodeAfter(Child(t, ls[k].key), ls[k]))
  {
    var u := SetLeaves(t, Init(ls));
    RoomComes(t, ls);
    if k == |ls| - 1 {
      SetLeavesKeepOthers(t, Init(ls), ls[k].key);
      SetLeafGives(u, Last(ls));
    } else {
      SetLeavesGive(t, Init(ls), k);
      SetLeafKeepsOthers(u, Last(ls), ls[k].key);
    }
  }

  lemma {:induction false} SettingWhatIsSet(t: Tree, ls: seq<Leaf>)
    requires forall i :: 0 <= i < |ls| ==> IsSet(t, ls[i])
    ensures SetLeaves(t, ls) == t
  {
    if ls != [] {
      assert forall i :: 0 <= i < |Init(ls)| ==> Init(ls)[i] == ls[i];
      SettingWhatIsSet(t, Init(ls));
      SetAgain(t, Last(ls));
    }
  }

  lemma SetLeavesTwice(t: Tree, ls: seq<Leaf>)
    requires AllRoom(t, ls) && DistinctKeys(ls)
    ensures SetLeaves(SetLeaves(t, ls), ls) == SetLeaves(t, ls)
  {
    forall k | 0 <= k < |ls|
      ensures IsSet(SetLeaves(t, ls), ls[k])
    {
      SetLeavesSet(t, ls, k);
    }
    SettingWhatIsSet(SetLeaves(t, ls), ls);
  }

  // ---- sections ---------------------------------------------------------------------------------------

  /** There is room for every key on the way and for the settings at its end. */
  predicate Fits(t: Tree, path: seq<string>, ls: seq<Leaf>)
    decreases |path|
  {
    if path == [] then AllRoom(t, ls)
    else Room(t, path[0]) && (Get(t, path[0]).Some? ==> Fits(Get(t, path[0]).value, path[1..], ls))
  }

  /** The same of the mappings on the way, down to the first node that is none. */
  predicate MappingsFit(t: Tree, path: seq<string>, ls: seq<Leaf>)
    decreases |path|
  {
    t.kind == MappingNode ==>
      if path == [] then AllRoom(t, ls)
      else Room(t, path[0]) && (Get(t, path[0]).Some? ==> MappingsFit(Get(t, path[0]).value, path[1..], ls))
  }

  /** The children of every mapping of the tree come in pairs, as in every parsed document. */
  predicate Paired(t: Tree) {
    && (t.kind == MappingNode ==> Even(t))
    && forall i :: 0 <= i < |t.children| ==> Paired(t.children[i])
  }

  lemma {:induction false} PairedFits(t: Tree, path: seq<string>, ls: seq<Leaf>)
    requires Paired(t)
    ensures MappingsFit(t, path, ls)
    decreases |path|
  {
    if path != [] && Get(t, path[0]).Some? {
      PairedFits(Get(t, path[0]).value, path[1..], ls);
    }
  }

  /** Every section on the way that exists is a mapping. */
  predicate MappingsAlong(t: Tree, path: seq<string>)
    decreases |path|
  {
    t.kind == MappingNode
    && (path != [] && Get(t, path[0]).Some? ==> MappingsAlong(Get(t, path[0]).value, path[1..]))
  }

  lemma EnsureKeeps(t: Tree, key: string)
    requires Room(t, key)
    ensures var u, i := Ensure(t, key), Section(t, key);
            && Even(u) == Even(t) && Has(u, key) && At(u, key) == i && i % 2 == 1
            && u.kind == t.kind
  {
    var l := Replace(key, EMPTY_MAPPING);
    if Has(t, key) {
      ValuesAreApart(t, key, key);
      PutKeepsKeys(t, key, At(t, key), EMPTY_MAPPING);
    } else {
      FindInAppended(t.children, key, key, EMPTY_MAPPING, 0);
    }
  }

  /** What `SetUnder` does at the first key of its path. */
  lemma SetUnderParts(t: Tree, path: seq<string>, ls: seq<Leaf>)
    requires path != [] && Room(t, path[0])
    ensures var u, v, i := Ensure(t, path[0]), SetUnder(t, path, ls), Section(t, path[0]);
            && i < |u.children| && v == Put(u, i, SetUnder(u.children[i], path[1..], ls))
            && Even(v) == Even(t) && v.kind == t.kind && Has(v, path[0]) && At(v, path[0]) == i && i % 2 == 1
            && v.children[i] == SetUnder(u.children[i], path[1..], ls)
  {
    SectionIsThere(t, path[0]);
    EnsureKeeps(t, path[0]);
    var u, i := Ensure(t, path[0]), Section(t, path[0]);
    PutKeepsKeys(u, path[0], i, SetUnder(u.children[i], path[1..], ls));
  }

  lemma {:induction false} SetUnderKind(t: Tree, path: seq<string>, ls: seq<Leaf>)
    ensures SetUnder(t, path, ls).kind == t.kind
  {
    if path == [] {
      SetLeavesKind(t, ls);
    } else {
      SectionIsThere(t, path[0]);
    }
  }

  lemma SectionFits(t: Tree, path: seq<string>, ls: seq<Leaf>)
    requires path != [] && Fits(t, path, ls)
    ensures var u, i := Ensure(t, path[0]), Section(t, path[0]);
            i < |u.children| && Fits(u.children[i], path[1..], ls)
  {
    SectionIsThere(t, path[0]);
    EmptyMappingFits(path[1..], ls);
  }

  lemma EmptyMappingFits(path: seq<string>, ls: seq<Leaf>)
    ensures MappingsAlong(EMPTY_MAPPING, path)
    ensures Fits(EMPTY_MAPPING, path, ls) && MappingsFit(EMPTY_MAPPING, path, ls)
  {
  }

  /**
   * What the path of a setting finds after the settings of its section: nothing if a section on the
   * way exists and is no mapping, and otherwise what the setting makes of the node found before.
   */
  lemma {:induction false} LooksUp(t: Tree, path: seq<string>, ls: seq<Leaf>, k: nat)
    requires MappingsFit(t, path, ls) && DistinctKeys(ls) && k < |ls|
    ensures GetPath(SetUnder(t, path, ls), path + [ls[k].key])
            == if MappingsAlong(t, path) then Some(NodeAfter(GetPath(t, path + [ls[k].key]), ls[k])) else None
    decreases |path|
  {
    var full := path + [ls[k].key];
    if path == [] {
      SetLeavesKind(t, ls);
      assert full == [ls[k].key];
      if t.kind == MappingNode {
        SetLeavesGive(t, ls, k);
      }
    } else if t.kind != MappingNode {
      SetUnderKind(t, path, ls);
    } else {
      SetUnderParts(t, path, ls);
      SectionIsThere(t, path[0]);
      EmptyMappingFits(path[1..], ls);
      var u, i := Ensure(t, path[0]), Section(t, path[0]);
      LooksUp(u.children[i], path[1..], ls, k);
      assert full[1..] == path[1..] + [ls[k].key];
      NothingInEmpty(full[1..]);
    }
  }

  lemma NothingInEmpty(path: seq<string>)
    requires path != []
    ensures GetPath(EMPTY_MAPPING, path) == None
  {
  }

  /** Making the settings of a section twice is making them once. */
  lemma {:induction false} SetUnderTwice(t: Tree, path: seq<string>, ls: seq<Leaf>)
    requires Fits(t, path, ls) && DistinctKeys(ls)
    ensures SetUnder(SetUnder(t, path, ls), path, ls) == SetUnder(t, path, ls)
    decreases |path|
  {
    if path == [] {
      SetLeavesTwice(t, ls);
    } else {
      var u, v, i := Ensure(t, path[0]), SetUnder(t, path, ls), Section(t, path[0]);
      SetUnderParts(t, path, ls);
      SetUnderParts(v, path, ls);
      SectionIsThere(t, path[0]);
      SectionFits(t, path, ls);
      SetUnderTwice(u.children[i], path[1..], ls);
      assert v.children[i := v.children[i]] == v.children;
      if t.kind == MappingNode {
        assert Ensure(v, path[0]) == v;
      } else {
        assert u.children[i] == EMPTY_MAPPING;
        assert Ensure(v, path[0]).children == v.children[i := EMPTY_MAPPING];
        assert Put(Ensure(v, path[0]), i, v.children[i]).children == v.children;
      }
    }
  }

  /** Settings below one key leave every other key of the node where it is and what it is. */
  lemma SetUnderKeepsOthers(t: Tree, path: seq<string>, ls: seq<Leaf>, key: string)
    requires path != [] && Room(t, path[0]) && key != path[0]
    ensures var v := SetUnder(t, path, ls);
            && Has(v, key) == Has(t, key) && Get(v, key) == Get(t, key)
            && (Has(t, key) ==> At(v, key) == At(t, key) && v.children[At(t, key)] == t.children[At(t, key)])
  {
    var u, v, i := Ensure(t, path[0]), SetUnder(t, path, ls), Section(t, path[0]);
    SetUnderParts(t, path, ls);
    SectionIsThere(t, path[0]);
    EnsureKeeps(t, path[0]);
    if u != t {
      SetLeafKeepsOthers(t, Replace(path[0], EMPTY_MAPPING), key);
    }
    PutKeepsKeys(u, key, i, v.children[i]);
    if Has(u, key) {
      ValuesAreApart(u, key, path[0]);
    }
  }

  /** A section already set stays set, and its settings change nothing, whatever is set beside it. */
  lemma SetBeside(t: Tree, e: Settings, path: seq<string>, ls: seq<Leaf>)
    requires Even(t) && t.kind == MappingNode && e.path != [] && path != [] && e.path[0] != path[0]
    requires SetUnder(t, e.path, e.leaves) == t
    ensures var v := SetUnder(t, path, ls); SetUnder(v, e.path, e.leaves) == v
  {
    var v := SetUnder(t, path, ls);
    SetUnderParts(t, e.path, e.leaves);
    SetUnderParts(t, path, ls);
    SetUnderKeepsOthers(t, path, ls, e.path[0]);
    SetUnderParts(v, e.path, e.leaves);
    SectionIsThere(t, e.path[0]);
    SectionIsThere(v, e.path[0]);
    var i := At(t, e.path[0]);
    assert v.children[i := v.children[i]] == v.children;
  }

  // ---- the whole list of settings -----------------------------------------------------------------------

  predicate AllFit(t: Tree, es: seq<Settings>) {
    forall i :: 0 <= i < |es| ==> Fits(t, es[i].path, es[i].leaves)
  }

  lemma {:induction false} SetAllKeeps(t: Tree, es: seq<Settings>, key: string)
    requires Even(t) && DistinctSections(es) && forall i :: 0 <= i < |es| ==> es[i].path[0] != key
    ensures var v := SetAll(t, es);
            && Even(v) && v.kind == t.kind && Get(v, key) == Get(t, key)
            && (Has(t, key) ==> Has(v, key) && At(v, key) == At(t, key))
  {
    if es != [] {
      var u := SetAll(t, Init(es));
      assert forall i :: 0 <= i < |Init(es)| ==> Init(es)[i] == es[i];
      SetAllKeeps(t, Init(es), key);
      SetUnderParts(u, Last(es).path, Last(es).leaves);
      SetUnderKeepsOthers(u, Last(es).path, Last(es).leaves, key);
    }
  }

  /** When a section's turn comes it is as it was at the start. */
  lemma TurnComes(t: Tree, es: seq<Settings>)
    requires es != [] && Even(t) && DistinctSections(es) && AllFit(t, es)
    ensures var u, path := SetAll(t, Init(es)), Last(es).path;
            && Even(u) && u.kind == t.kind && Fits(u, path, Last(es).leaves)
            && (t.kind == MappingNode ==> (MappingsAlong(u, path) <==> MappingsAlong(t, path)))
  {
    assert forall i :: 0 <= i < |Init(es)| ==> Init(es)[i] == es[i];
    SetAllKeeps(t, Init(es), Last(es).path[0]);
  }

  /** Every section's settings are in force after all of them: making them again changes nothing. */
  lemma {:induction false} SetAllSettles(t: Tree, es: seq<Settings>, k: nat)
    requires Even(t) && t.kind == MappingNode && DistinctSections(es) && AllFit(t, es) && k < |es|
    ensures SetUnder(SetAll(t, es), es[k].path, es[k].leaves) == SetAll(t, es)
  {
    var u := SetAll(t, Init(es));
    TurnComes(t, es);
    if k == |es| - 1 {
      SetUnderTwice(u, es[k].path, es[k].leaves);
    } else {
      assert Init(es)[k] == es[k];
      assert forall i :: 0 <= i < |Init(es)| ==> Init(es)[i] == es[i];
      SetAllSettles(t, Init(es), k);
      SetBeside(u, es[k], Last(es).path, Last(es).leaves);
    }
  }

  lemma {:induction false} AllSettled(t: Tree, es: seq<Settings>)
    requires forall i :: 0 <= i < |es| ==> SetUnder(t, es[i].path, es[i].leaves) == t
    ensures SetAll(t, es) == t
  {
    if es != [] {
      assert forall i :: 0 <= i < |Init(es)| ==> Init(es)[i] == es[i];
      AllSettled(t, Init(es));
    }
  }

  /** The rewrite is idempotent on every document whose sections have room for it. */
  lemma FittingRewriteTwice(t: Tree, mockURL: string)
    requires t.kind == MappingNode && Even(t) && AllFit(t, LoadTestSettings(mockURL))
    ensures Rewritten(Rewritten(t, mockURL), mockURL) == Rewritten(t, mockURL)
  {
    var es := LoadTestSettings(mockURL);
    LoadTestSettingsAreDistinct(mockURL);
    forall k | 0 <= k < |es|
      ensures SetUnder(SetAll(t, es), es[k].path, es[k].leaves) == SetAll(t, es)
    {
      SetAllSettles(t, es, k);
    }
    AllSettled(SetAll(t, es), es);
  }

  /** What a path finds after all settings is what it finds right after its own section's. */
  lemma {:induction false} OwnSectionDecides(t: Tree, es: seq<Settings>, k: nat)
    requires Even(t) && t.kind == MappingNode && DistinctSections(es) && k < |es|
    ensures Get(SetAll(t, es), es[k].path[0]) == Get(SetUnder(t, es[k].path, es[k].leaves), es[k].path[0])
    ensures SetAll(t, es).kind == t.kind && Even(SetAll(t, es))
  {
    var u, e := SetAll(t, Init(es)), Last(es);
    assert forall i :: 0 <= i < |Init(es)| ==> Init(es)[i] == es[i];
    SetAllKeeps(t, Init(es), e.path[0]);
    SetUnderParts(u, e.path, e.leaves);
    if k == |es| - 1 {
      SetUnderParts(t, e.path, e.leaves);
      SectionIsThere(t, e.path[0]);
      SectionIsThere(u, e.path[0]);
    } else {
      OwnSectionDecides(t, Init(es), k);
      SetUnderKeepsOthers(u, e.path, e.leaves, es[k].path[0]);
    }
  }

  lemma SetAllLooksUp(t: Tree, es: seq<Settings>, k: nat, l: nat)
    requires t.kind == MappingNode && Even(t) && DistinctSections(es)
    requires k < |es| && l < |es[k].leaves| && MappingsFit(t, es[k].path, es[k].leaves)
    ensures var e := es[k];
            var path := e.path + [e.leaves[l].key];
            GetPath(SetAll(t, es), path)
            == if MappingsAlong(t, e.path) then Some(NodeAfter(GetPath(t, path), e.leaves[l])) else None
  {
    OwnSectionDecides(t, es, k);
    LooksUp(t, es[k].path, es[k].leaves, l);
  }

  /** A node found that says what the setting wants: a scalar of that value and tag, or the very node. */
  predicate InForce(found: Option<Tree>, l: Leaf) {
    found.Some? &&
    match l
    case SetTo(_, value, tag) => found.value.kind == ScalarNode && found.value.value == value && found.value.tag == tag
    case Replace(_, node) => found.value == node
  }

  /** A value can be set on a scalar, or where there is nothing; a node replaces any other. */
  predicate CanHold(was: Option<Tree>, l: Leaf) {
    l.SetTo? && was.Some? ==> was.value.kind == ScalarNode
  }

  lemma HeldIsInForce(was: Option<Tree>, l: Leaf)
    ensures InForce(Some(NodeAfter(was, l)), l) <==> CanHold(was, l)
  {
  }

  /**
   * After the rewrite a setting is in force if and only if every existing section on the way to it is
   * a mapping, whatever the other sections are, and no mapping, list or alias stood where its value
   * goes; what its path finds is given in any case.
   */
  lemma RewriteLooksUp(t: Tree, mockURL: string, k: nat, l: nat)
    requires t.kind == MappingNode && Even(t)
    requires k < |LoadTestSettings(mockURL)| && l < |LoadTestSettings(mockURL)[k].leaves|
    requires MappingsFit(t, LoadTestSettings(mockURL)[k].path, LoadTestSettings(mockURL)[k].leaves)
    ensures var e := LoadTestSettings(mockURL)[k];
            var leaf, path := e.leaves[l], e.path + [e.leaves[l].key];
            var found := GetPath(Rewritten(t, mockURL), path);
            && found == (if MappingsAlong(t, e.path) then Some(NodeAfter(GetPath(t, path), leaf)) else None)
            && (InForce(found, leaf) <==> MappingsAlong(t, e.path) && CanHold(GetPath(t, path), leaf))
  {
    var es := LoadTestSettings(mockURL);
    LoadTestSettingsAreDistinct(mockURL);
    SetAllLooksUp(t, es, k, l);
    HeldIsInForce(GetPath(t, es[k].path + [es[k].leaves[l].key]), es[k].leaves[l]);
  }

  /** For a document as parsed nothing else is needed: its mappings come in pairs. */
  lemma ParsedRewriteLooksUp(t: Tree, mockURL: string, k: nat, l: nat)
    requires t.kind == MappingNode && Paired(t)
    requires k < |LoadTestSettings(mockURL)| && l < |LoadTestSettings(mockURL)[k].leaves|
    ensures var e := LoadTestSettings(mockURL)[k];
            var leaf, path := e.leaves[l], e.path + [e.leaves[l].key];
            var found := GetPath(Rewritten(t, mockURL), path);
            && found == (if MappingsAlong(t, e.path) then Some(NodeAfter(GetPath(t, path), leaf)) else None)
            && (InForce(found, leaf) <==> MappingsAlong(t, e.path) && CanHold(GetPath(t, path), leaf))
  {
    var e := LoadTestSettings(mockURL)[k];
    PairedFits(t, e.path, e.leaves);
    RewriteLooksUp(t, mockURL, k, l);
  }

  /** With mappings, or nothing, on the way and a scalar, or nothing, in its place, the value is set. */
  predicate Settles(t: Tree, u: Tree, section: seq<string>, key: string, value: string, tag: string) {
    var was, found := GetPath(t, section + [key]), GetPath(u, section + [key]);
    MappingsAlong(t, section) && (was.Some? ==> was.value.kind == ScalarNode) ==>
      found.Some? && found.value.kind == ScalarNode && found.value.value == value && found.value.tag == tag
  }

  lemma SettlesLeaf(t: Tree, mockURL: string, k: nat, l: nat, e: Settings, leaf: Leaf)
    requires t.kind == MappingNode && Paired(t)
    requires k < |LoadTestSettings(mockURL)| && e == LoadTestSettings(mockURL)[k]
    requires l < |e.leaves| && leaf == e.leaves[l] && leaf.SetTo?
    ensures Settles(t, Rewritten(t, mockURL), e.path, leaf.key, leaf.value, leaf.tag)
  {
    ParsedRewriteLooksUp(t, mockURL, k, l);
  }

  lemma NewKeyIsAppended(t: Tree, key: string, value: string, tag: string)
    requires Even(t) && !Has(t, key)
    ensures var u := SetScalar(t, key, value, tag);
            && u == t.(children := t.children + [KeyNode(key), Scalar(tag, value)]) && Even(u)
            && forall other :: Has(u, other) <==> Has(t, other) || other == key
  {
    forall other ensures Has(SetScalar(t, key, value, tag), other) <==> Has(t, other) || other == key {
      FindInAppended(t.children, other, key, Scalar(tag, value), 0);
    }
  }

  function Unlimited(): Tree {
    Tree(MappingNode, "", "", "", [
      KeyNode("enabled"), Scalar("!!bool", "true"), KeyNode("prefix"), Scalar("!!str", "/api/"),
      KeyNode("requests_per_minute"), Scalar("!!int", "100000"), KeyNode("burst"), Scalar("!!int", "10000")])
  }

  lemma HalfAnEntry()
    ensures var u := SetLeaves(EMPTY_MAPPING, ENTRY_LEAVES[..2]);
            && u == Unlimited().(children := Unlimited().children[..4]) && Even(u)
            && forall key :: Has(u, key) <==> key == "enabled" || key == "prefix"
  {
    var ls := ENTRY_LEAVES;
    assert Init(ls[..2]) == ls[..1] && Init(ls[..1]) == [] && Last(ls[..1]) == ls[0] && Last(ls[..2]) == ls[1];
    assert "enabled"[0] == 'e' && "prefix"[0] == 'p';
    assert SetLeaves(EMPTY_MAPPING, []) == EMPTY_MAPPING;
    NewKeyIsAppended(EMPTY_MAPPING, "enabled", "true", "!!bool");
    var t := SetLeaves(EMPTY_MAPPING, ls[..1]);
    assert t == SetScalar(EMPTY_MAPPING, "enabled", "true", "!!bool");
    assert !Has(t, "prefix");
    NewKeyIsAppended(t, "prefix", "/api/", "!!str");
  }

  lemma EntrySpelledOut()
    ensures SetLeaves(EMPTY_MAPPING, ENTRY_LEAVES) == Unlimited()
  {
    var ls := ENTRY_LEAVES;
    assert ls[..4] == ls && Init(ls) == ls[..3] && Init(ls[..3]) == ls[..2];
    assert "enabled"[0] == 'e' && "prefix"[0] == 'p' && "requests_per_minute"[0] == 'r' && "burst"[0] == 'b';
    HalfAnEntry();
    NewKeyIsAppended(SetLeaves(EMPTY_MAPPING, ls[..2]), "requests_per_minute", "100000", "!!int");
    NewKeyIsAppended(SetLeaves(EMPTY_MAPPING, ls[..3]), "burst", "10000", "!!int");
  }

  lemma RateLeafIsFound(t: Tree, mockURL: string, l: nat, leaf: Leaf)
    requires t.kind == MappingNode && Paired(t) && l < |RateLeaves()| && leaf == RateLeaves()[l]
    ensures leaf.SetTo? ==>
              Settles(t, Rewritten(t, mockURL), ["security", "rate_limiting"], leaf.key, leaf.value, leaf.tag)
    ensures leaf.Replace? && MappingsAlong(t, ["security", "rate_limiting"]) ==>
              GetPath(Rewritten(t, mockURL), ["security", "rate_limiting"] + [leaf.key]) == Some(leaf.node)
  {
    assert LoadTestSettings(mockURL)[0] == RATE_SETTINGS;
    ParsedRewriteLooksUp(t, mockURL, 0, l);
  }

  /** The limits a load test runs under. */
  lemma LimitsAreRelaxed(t: Tree, mockURL: string)
    requires t.kind == MappingNode && Paired(t)
    ensures var u, section := Rewritten(t, mockURL), ["security", "rate_limiting"];
            && Settles(t, u, section, "enabled", "true", "!!bool")
            && Settles(t, u, section, "requests_per_minute", "100000", "!!int")
            && Settles(t, u, section, "burst", "10000", "!!int")
  {
    RateLeafIsFound(t, mockURL, 0, SetTo("enabled", "true", "!!bool"));
    RateLeafIsFound(t, mockURL, 1, SetTo("requests_per_minute", "100000", "!!int"));
    RateLeafIsFound(t, mockURL, 2, SetTo("burst", "10000", "!!int"));
  }

  /** And the one path they are set for, whatever stood there before. */
  lemma PathIsUnlimited(t: Tree, mockURL: string)
    requires t.kind == MappingNode && Paired(t) && MappingsAlong(t, ["security", "rate_limiting"])
    ensures GetPath(Rewritten(t, mockURL), ["security", "rate_limiting", "paths"])
            == Some(Tree(SequenceNode, "", "", "", [Unlimited()]))
  {
    assert ["security", "rate_limiting"] + ["paths"] == ["security", "rate_limiting", "paths"];
    RateLeafIsFound(t, mockURL, 3, Replace("paths", PathsNode()));
    EntrySpelledOut();
  }

  /** Files are kept locally. */
  lemma UploadIsLocal(t: Tree, mockURL: string)
    requires t.kind == MappingNode && Paired(t)
    ensures Settles(t, Rewritten(t, mockURL), ["upload"], "provider", "local", "!!str")
  {
    SettlesLeaf(t, mockURL, 1, 0, UPLOAD_SETTINGS, SetTo("provider", "local", "!!str"));
  }

  /** No knowledge provider is asked. */
  lemma KnowledgeIsOff(t: Tree, mockURL: string)
    requires t.kind == MappingNode && Paired(t)
    ensures Settles(t, Rewritten(t, mockURL), ["knowledge"], "provider", "", "!!str")
  {
    var k := if mockURL == "" then 2 else 3;
    SettlesLeaf(t, mockURL, k, 0, KNOWLEDGE_SETTINGS, SetTo("provider", "", "!!str"));
  }

  /** Other sections are as they were, and without a mock so is the model's. */
  lemma OtherSectionsStay(t: Tree, mockURL: string, key: string)
    requires t.kind == MappingNode && Even(t)
    requires key !in ["security", "upload", "knowledge"] && (key == "ai" ==> mockURL == "")
    ensures Get(Rewritten(t, mockURL), key) == Get(t, key)
  {
    LoadTestSettingsAreDistinct(mockURL);
    var es := LoadTestSettings(mockURL);
    forall i | 0 <= i < |es| ensures es[i].path[0] != key {
      assert es[i].path[0] in ["security", "upload", "knowledge"] || (mockURL != "" && es[i].path[0] == "ai");
    }
    SetAllKeeps(t, es, key);
  }

  /** With a mock the model is the mock's, at its address with or without a slash at the end. */
  lemma ModelIsTheMocks(t: Tree, mockURL: string, url: string)
    requires t.kind == MappingNode && Paired(t) && mockURL != ""
    requires mockURL == url + "/" || (mockURL == url && url[|url| - 1] != '/')
    ensures Settles(t, Rewritten(t, mockURL), ["ai", "openai"], "api_key", "perf-not-a-real-key", "!!str")
    ensures Settles(t, Rewritten(t, mockURL), ["ai", "openai"], "base_url", url + "/v1", "!!str")
  {
    TrailingSlashIsDropped(url);
    var e := ModelSettings(mockURL);
    SettlesLeaf(t, mockURL, 2, 0, e, SetTo("api_key", "perf-not-a-real-key", "!!str"));
    SettlesLeaf(t, mockURL, 2, 1, e, SetTo("base_url", url + "/v1", "!!str"));
  }

  /** A document of one section with one key, as `upload: {provider: ...}`. */
  function OneKey(section: string, key: string, node: Tree): Tree {
    Tree(MappingNode, "", "", "", [KeyNode(section), Tree(MappingNode, "", "", "", [KeyNode(key), node])])
  }

  lemma OneKeyIsFound(section: string, key: string, node: Tree)
    ensures var t := OneKey(section, key, node);
            && GetPath(t, [section, key]) == Some(node) && MappingsAlong(t, [section])
            && Even(t) && MappingsFit(t, [section], [SetTo(key, "", "")])
  {
    var t := OneKey(section, key, node);
    var u := t.children[1];
    assert t.children[0].value == section && u.children[0].value == key;
    assert Get(t, section) == Some(u) && Get(u, key) == Some(node);
    assert [section, key][1..] == [key] && [section][1..] == [] && [key][1..] == [];
    assert GetPath(u, [key]) == GetPath(node, []);
    assert MappingsAlong(u, []) && MappingsFit(u, [], [SetTo(key, "", "")]);
  }

  /** A mapping, list or alias where the provider goes stays one, its text and tag overwritten. */
  lemma OverwrittenNodeStays(mockURL: string, node: Tree)
    requires node.kind != ScalarNode
    ensures var path, t := ["upload", "provider"], OneKey("upload", "provider", node);
            && GetPath(Rewritten(t, mockURL), path) == Some(node.(value := "local", tag := "!!str"))
            && !InForce(GetPath(Rewritten(t, mockURL), path), SetTo("provider", "local", "!!str"))
  {
    var t := OneKey("upload", "provider", node);
    OneKeyIsFound("upload", "provider", node);
    assert LoadTestSettings(mockURL)[1] == UPLOAD_SETTINGS;
    assert ["upload"] + ["provider"] == ["upload", "provider"];
    assert MappingsFit(t, UPLOAD_SETTINGS.path, UPLOAD_SETTINGS.leaves);
    RewriteLooksUp(t, mockURL, 1, 0);
  }

  // ---- what the rewrite leaves alone -------------------------------------------------------------------

  predicate IsValueOf(t: Tree, i: int, keys: set<string>) {
    exists key :: key in keys && Has(t, key) && i == At(t, key)
  }

  predicate IsNewKey(t: Tree, c: Tree, keys: set<string>) {
    exists key :: key in keys && !Has(t, key) && c == KeyNode(key)
  }

  /**
   * `u` is `t` with nothing moved or removed, nothing changed but the first values of `keys`, and
   * nothing new but pairs of missing `keys` at the end.
   */
  predicate Extends(t: Tree, u: Tree, keys: set<string>) {
    && u == t.(children := u.children)
    && |t.children| <= |u.children| && Even(t) && Even(u)
    && (forall i :: 0 <= i < |t.children| && u.children[i] != t.children[i] ==> IsValueOf(t, i, keys))
    && (forall i :: |t.children| <= i < |u.children| && i % 2 == 0 ==> IsNewKey(t, u.children[i], keys))
  }

  lemma ExtendsOnce(t: Tree, key: string, c: Tree)
    requires Even(t)
    ensures Extends(t, SetNode(t, key, c), {key})
  {
    var u := SetNode(t, key, c);
    if !Has(t, key) {
      assert u.children[|t.children|] == KeyNode(key);
      assert IsNewKey(t, KeyNode(key), {key});
    } else {
      assert IsValueOf(t, At(t, key), {key});
    }
  }

  lemma SetLeafExtends(t: Tree, l: Leaf)
    requires Even(t)
    ensures Extends(t, SetLeaf(t, l), {l.key})
  {
    SetLeafParts(t, l);
    var u := SetLeaf(t, l);
    if Has(t, l.key) {
      ExtendsOnce(t, l.key, u.children[At(t, l.key)]);
    } else {
      ExtendsOnce(t, l.key, Last(u.children));
    }
  }

  lemma SetUnderExtends(t: Tree, path: seq<string>, ls: seq<Leaf>)
    requires path != [] && Even(t)
    ensures Extends(t, SetUnder(t, path, ls), {path[0]})
  {
    SetUnderParts(t, path, ls);
    var v, i := SetUnder(t, path, ls), Section(t, path[0]);
    ExtendsOnce(t, path[0], v.children[i]);
    assert v == SetNode(t, path[0], v.children[i]);
  }

  lemma {:induction false} FoundEarly(c: seq<Tree>, d: seq<Tree>, key: string, i: nat)
    requires i <= |c| <= |d| && (|c| - i) % 2 == 0
    requires forall m :: i <= m < |c| && (m - i) % 2 == 0 ==> c[m].value == d[m].value
    ensures Find(c, key, i).Some? ==> Find(d, key, i) == Find(c, key, i)
    ensures Find(c, key, i).None? && Find(d, key, i).Some? ==> Find(d, key, i).value >= |c|
    decreases |c| - i
  {
    if i + 1 < |c| {
      assert (i - i) % 2 == 0;
      FoundEarly(c, d, key, i + 2);
    }
  }

  /** Keys keep their places in an extension. */
  lemma ExtensionKeepsKeys(t: Tree, u: Tree, keys: set<string>, key: string)
    requires Extends(t, u, keys)
    ensures Has(t, key) ==> Has(u, key) && At(u, key) == At(t, key)
    ensures Has(u, key) && At(u, key) < |t.children| ==> Has(t, key)
  {
    forall m | 0 <= m < |t.children| && m % 2 == 0
      ensures t.children[m].value == u.children[m].value
    {
      assert !IsValueOf(t, m, keys);
    }
    FoundEarly(t.children, u.children, key, 0);
  }

  lemma ExtendsTransitively(t: Tree, u: Tree, v: Tree, keys: set<string>, more: set<string>)
    requires Extends(t, u, keys) && Extends(u, v, more)
    ensures Extends(t, v, keys + more)
  {
    forall i | 0 <= i < |t.children| && v.children[i] != t.children[i]
      ensures IsValueOf(t, i, keys + more)
    {
      if u.children[i] != t.children[i] {
        assert IsValueOf(t, i, keys);
        var key :| key in keys && Has(t, key) && i == At(t, key);
      } else {
        assert IsValueOf(u, i, more);
        var key :| key in more && Has(u, key) && i == At(u, key);
        ExtensionKeepsKeys(t, u, keys, key);
      }
    }
    forall i | |t.children| <= i < |v.children| && i % 2 == 0
      ensures IsNewKey(t, v.children[i], keys + more)
    {
      if i < |u.children| {
        assert v.children[i] == u.children[i] by {
          assert !IsValueOf(u, i, more);
        }
        assert IsNewKey(t, u.children[i], keys);
        var key :| key in keys && !Has(t, key) && u.children[i] == KeyNode(key);
      } else {
        assert IsNewKey(u, v.children[i], more);
        var key :| key in more && !Has(u, key) && v.children[i] == KeyNode(key);
        ExtensionKeepsKeys(t, u, keys, key);
      }
    }
  }

  function LeafKeys(ls: seq<Leaf>): set<string> {
    if ls == [] then {} else LeafKeys(Init(ls)) + {Last(ls).key}
  }

  function SectionKeys(es: seq<Settings>): set<string> {
    if es == [] then {}
    else SectionKeys(Init(es)) + (if Last(es).path == [] then {} else {Last(es).path[0]})
  }

  lemma {:induction false} SetLeavesExtend(t: Tree, ls: seq<Leaf>)
    requires Even(t)
    ensures Extends(t, SetLeaves(t, ls), LeafKeys(ls))
  {
    if ls != [] {
      var u := SetLeaves(t, Init(ls));
      SetLeavesExtend(t, Init(ls));
      SetLeafExtends(u, Last(ls));
      ExtendsTransitively(t, u, SetLeaf(u, Last(ls)), LeafKeys(Init(ls)), {Last(ls).key});
    }
  }

  lemma {:induction false} SetAllExtends(t: Tree, es: seq<Settings>)
    requires Even(t) && DistinctSections(es)
    ensures Extends(t, SetAll(t, es), SectionKeys(es))
  {
    if es != [] {
      var u, e := SetAll(t, Init(es)), Last(es);
      assert forall i :: 0 <= i < |Init(es)| ==> Init(es)[i] == es[i];
      SetAllExtends(t, Init(es));
      SetUnderExtends(u, e.path, e.leaves);
      ExtendsTransitively(t, u, SetUnder(u, e.path, e.leaves), SectionKeys(Init(es)), {e.path[0]});
    }
  }

  /** Every section on the way that exists has its children in pairs. */
  predicate EvenAlong(t: Tree, path: seq<string>)
    decreases |path|
  {
    Even(t) && (path != [] && Get(t, path[0]).Some? ==> EvenAlong(Get(t, path[0]).value, path[1..]))
  }

  predicate SectionsAreEven(t: Tree, es: seq<Settings>) {
    forall i :: 0 <= i < |es| ==> EvenAlong(t, es[i].path)
  }

  /** The same at every existing section on the way, and at its end for the settings made there. */
  predicate ExtendsAlong(t: Tree, u: Tree, path: seq<string>, keys: set<string>)
    decreases |path|
  {
    if path == [] then Extends(t, u, keys)
    else
      && Extends(t, u, {path[0]})
      && (Get(t, path[0]).Some? ==>
            && Get(u, path[0]).Some?
            && ExtendsAlong(Get(t, path[0]).value, Get(u, path[0]).value, path[1..], keys))
  }

  lemma {:induction false} SetUnderExtendsAlong(t: Tree, path: seq<string>, ls: seq<Leaf>)
    requires EvenAlong(t, path)
    ensures ExtendsAlong(t, SetUnder(t, path, ls), path, LeafKeys(ls))
    decreases |path|
  {
    if path == [] {
      SetLeavesExtend(t, ls);
    } else {
      SetUnderExtends(t, path, ls);
      if Get(t, path[0]).Some? {
        SetUnderParts(t, path, ls);
        SectionIsThere(t, path[0]);
        SetUnderExtendsAlong(Get(t, path[0]).value, path[1..], ls);
      }
    }
  }

  /** What was in the section of `e` is kept along its path, down to the keys `e` sets. */
  predicate KeepsSection(t: Tree, u: Tree, e: Settings) {
    e.path != [] && Get(t, e.path[0]).Some? ==>
      && Get(u, e.path[0]).Some?
      && ExtendsAlong(Get(t, e.path[0]).value, Get(u, e.path[0]).value, e.path[1..], LeafKeys(e.leaves))
  }

  lemma SectionIsKept(t: Tree, es: seq<Settings>, k: nat)
    requires t.kind == MappingNode && Even(t) && DistinctSections(es) && SectionsAreEven(t, es) && k < |es|
    ensures KeepsSection(t, SetAll(t, es), es[k])
  {
    OwnSectionDecides(t, es, k);
    SetUnderExtendsAlong(t, es[k].path, es[k].leaves);
  }

  /**
   * The rewrite keeps everything else: at the top only its sections are touched or appended, and in
   * each section it enters only what lies on its path, down to the keys it sets.
   */
  lemma RewriteKeepsTheRest(t: Tree, mockURL: string, k: nat)
    requires t.kind == MappingNode && Even(t) && SectionsAreEven(t, LoadTestSettings(mockURL))
    requires k < |LoadTestSettings(mockURL)|
    ensures Extends(t, Rewritten(t, mockURL), SectionKeys(LoadTestSettings(mockURL)))
    ensures KeepsSection(t, Rewritten(t, mockURL), LoadTestSettings(mockURL)[k])
  {
    LoadTestSettingsAreDistinct(mockURL);
    SetAllExtends(t, LoadTestSettings(mockURL));
    SectionIsKept(t, LoadTestSettings(mockURL), k);
  }

  // ---- exactly when the rewrite is idempotent --------------------------------------------------------------

  /** The text of the value node a setting makes. */
  function TextOf(l: Leaf): string {
    match l
    case SetTo(_, value, _) => value
    case Replace(_, node) => node.value
  }

  /** No setting's value reads like one of the keys. */
  predicate Plain(ls: seq<Leaf>) {
    forall i, j :: 0 <= i < |ls| && 0 <= j < |ls| ==> TextOf(ls[i]) != ls[j].key
  }

  lemma {:induction false} SetLeavesGrow(t: Tree, ls: seq<Leaf>)
    ensures |SetLeaves(t, ls).children| >= |t.children|
    ensures Even(SetLeaves(t, ls)) == Even(t)
  {
    if ls != [] {
      SetLeavesGrow(t, Init(ls));
      SetLeafParts(SetLeaves(t, Init(ls)), Last(ls));
    }
  }

  /** Settings that append nothing found all their keys, which stay where they are, and are in force. */
  lemma {:induction false} SetLeavesInPlace(t: Tree, ls: seq<Leaf>)
    requires |SetLeaves(t, ls).children| == |t.children| && DistinctKeys(ls)
    ensures forall key :: Find(SetLeaves(t, ls).children, key, 0) == Find(t.children, key, 0)
    ensures forall i :: 0 <= i < |ls| ==> IsSet(SetLeaves(t, ls), ls[i])
  {
    if ls != [] {
      var u, l := SetLeaves(t, Init(ls)), Last(ls);
      var v := SetLeaf(u, l);
      SetLeavesGrow(t, Init(ls));
      SetLeafParts(u, l);
      assert Has(u, l.key);
      SetLeavesInPlace(t, Init(ls));
      ValuesAreApart(u, l.key, l.key);
      forall key
        ensures Find(v.children, key, 0) == Find(u.children, key, 0)
      {
        PutKeepsKeys(u, key, At(u, l.key), v.children[At(u, l.key)]);
      }
      SetLeafSets(u, l);
      forall i | 0 <= i < |ls| - 1
        ensures IsSet(v, ls[i])
      {
        assert Init(ls)[i] == ls[i];
        SetLeafKeepsOthers(u, l, ls[i].key);
      }
    }
  }

  predicate IsTextOf(text: string, ls: seq<Leaf>) {
    exists j :: 0 <= j < |ls| && TextOf(ls[j]) == text
  }

  /** In the part appended to an odd list the values stand where keys are looked for. */
  predicate Shifted(t: Tree, u: Tree, ls: seq<Leaf>) {
    && |t.children| <= |u.children| && Even(t) == Even(u)
    && (forall m :: 0 <= m < |t.children| && m % 2 == 0 ==> u.children[m] == t.children[m])
    && (forall m :: |t.children| < m < |u.children| && m % 2 == 0 ==>
          IsTextOf(u.children[m].value, ls))
  }

  /** One more setting on a shifted list. */
  lemma OddSettingShifts(t: Tree, u: Tree, ls: seq<Leaf>)
    requires !Even(t) && ls != [] && Shifted(t, u, Init(ls))
    ensures Shifted(t, SetLeaf(u, Last(ls)), ls)
  {
    var l := Last(ls);
    var v := SetLeaf(u, l);
    SetLeafParts(u, l);
    if Has(u, l.key) {
      ValuesAreApart(u, l.key, l.key);
    }
    forall m | |t.children| < m < |v.children| && m % 2 == 0
      ensures IsTextOf(v.children[m].value, ls)
    {
      if m < |u.children| {
        assert v.children[m] == u.children[m] && IsTextOf(u.children[m].value, Init(ls));
        var j :| 0 <= j < |Init(ls)| && TextOf(Init(ls)[j]) == u.children[m].value;
        assert Init(ls)[j] == ls[j];
      } else {
        assert v.children[m].value == TextOf(ls[|ls| - 1]);
      }
    }
  }

  lemma {:induction false} OddSettingsShift(t: Tree, ls: seq<Leaf>)
    requires !Even(t)
    ensures Shifted(t, SetLeaves(t, ls), ls)
  {
    if ls != [] {
      OddSettingsShift(t, Init(ls));
      OddSettingShifts(t, SetLeaves(t, Init(ls)), ls);
    }
  }

  /** A key missing from an odd list that is found later is the list's last element. */
  lemma FoundAtTheSeam(t: Tree, u: Tree, ls: seq<Leaf>, key: string)
    requires !Even(t) && Shifted(t, u, ls) && !Has(t, key) && Has(u, key)
    requires forall j :: 0 <= j < |ls| ==> TextOf(ls[j]) != key
    ensures At(u, key) == |t.children| && Last(t.children).value == key
  {
    var a := Find(u.children, key, 0).value;
    if a < |t.children| - 1 {
      FirstOrEarlier(t.children, key, a, 0);
    }
  }

  lemma {:induction false} FirstOrEarlier(c: seq<Tree>, key: string, a: nat, i: nat)
    requires i <= a && a + 1 < |c| && (a - i) % 2 == 0 && c[a].value == key
    ensures Find(c, key, i).Some?
    decreases a - i
  {
    if i < a && c[i].value != key {
      FirstOrEarlier(c, key, a, i + 2);
    }
  }

  lemma SeamIsLeftAlone(u: Tree, l: Leaf, n: nat)
    requires 0 < n < |u.children| && u.children[n - 1].value != l.key
    ensures |SetLeaf(u, l).children| > n && SetLeaf(u, l).children[n] == u.children[n]
  {
    SetLeafParts(u, l);
  }

  /** The first missing key leaves its key node where the seam is, and no other setting touches it. */
  lemma {:induction false} KeyNodeAtTheSeam(t: Tree, ls: seq<Leaf>, j: nat)
    requires !Even(t) && DistinctKeys(ls) && j < |ls| && !Has(t, ls[j].key)
    requires forall i :: 0 <= i < j ==> Has(t, ls[i].key)
    requires Last(t.children).value == ls[j].key
    ensures |SetLeaves(t, ls).children| > |t.children|
    ensures SetLeaves(t, ls).children[|t.children|] == KeyNode(ls[j].key)
  {
    var u, l := SetLeaves(t, Init(ls)), Last(ls);
    if j == |ls| - 1 {
      AllFoundBefore(t, Init(ls));
    } else {
      assert Init(ls)[j] == ls[j];
      KeyNodeAtTheSeam(t, Init(ls), j);
      OddSettingsShift(t, Init(ls));
      SeamIsLeftAlone(u, l, |t.children|);
    }
  }

  lemma {:induction false} AllFoundBefore(t: Tree, ls: seq<Leaf>)
    requires DistinctKeys(ls) && forall i :: 0 <= i < |ls| ==> Has(t, ls[i].key)
    ensures |SetLeaves(t, ls).children| == |t.children|
    ensures forall key :: Find(SetLeaves(t, ls).children, key, 0) == Find(t.children, key, 0)
  {
    if ls != [] {
      assert Has(t, ls[|ls| - 1].key);
      AllFoundBefore(t, Init(ls));
      SetLeavesInPlace(t, ls);
    }
  }

  /** Without room for every setting, making the settings twice is not making them once. */
  lemma UnfitLeaves(t: Tree, ls: seq<Leaf>)
    requires !AllRoom(t, ls) && DistinctKeys(ls) && Plain(ls)
    ensures SetLeaves(SetLeaves(t, ls), ls) != SetLeaves(t, ls)
  {
    var u := SetLeaves(t, ls);
    if SetLeaves(u, ls) == u {
      var j := FirstWithoutRoom(t, ls);
      SetLeavesInPlace(u, ls);
      assert IsSet(u, ls[j]);
      OddSettingsShift(t, ls);
      FoundAtTheSeam(t, u, ls, ls[j].key);
      KeyNodeAtTheSeam(t, ls, j);
    }
  }

  lemma {:induction false} FirstWithoutRoom(t: Tree, ls: seq<Leaf>) returns (j: nat)
    requires !AllRoom(t, ls)
    ensures !Even(t) && j < |ls| && !Has(t, ls[j].key) && forall i :: 0 <= i < j ==> Has(t, ls[i].key)
  {
    if AllRoom(t, Init(ls)) {
      j := |ls| - 1;
      assert forall i :: 0 <= i < j ==> Room(t, Init(ls)[i].key);
    } else {
      j := FirstWithoutRoom(t, Init(ls));
    }
  }

  lemma {:induction false} SetUnderIsNotEmpty(t: Tree, path: seq<string>, ls: seq<Leaf>)
    requires path != [] || ls != []
    ensures SetUnder(t, path, ls).children != []
  {
    if path == [] {
      SetLeafParts(SetLeaves(t, Init(ls)), Last(ls));
    } else {
      SectionIsThere(t, path[0]);
    }
  }

  /** A node without room for the first key of the path. */
  lemma UnfitSection(t: Tree, path: seq<string>, ls: seq<Leaf>)
    requires path != [] && ls != [] && !Room(t, path[0])
    ensures SetUnder(SetUnder(t, path, ls), path, ls) != SetUnder(t, path, ls)
  {
    var key, n := path[0], |t.children|;
    var v := SetUnder(t, path, ls);
    SectionIsThere(t, key);
    SectionIsThere(v, key);
    SetUnderKind(EMPTY_MAPPING, path[1..], ls);
    SetUnderIsNotEmpty(KeyNode(key), path[1..], ls);
    assert v.children[n] == KeyNode(key) && forall m :: 0 <= m < n ==> v.children[m] == t.children[m];
    if Has(v, key) {
      var a := Find(v.children, key, 0).value;
      if a < n - 1 {
        FirstOrEarlier(t.children, key, a, 0);
      }
      assert Section(v, key) == n;
      var w := SetUnder(v, path, ls);
      assert w.children[n] != KeyNode(key);
    } else {
      assert |SetUnder(v, path, ls).children| == |v.children| + 2;
    }
  }

  lemma {:induction false} UnfitUnder(t: Tree, path: seq<string>, ls: seq<Leaf>)
    requires !Fits(t, path, ls) && DistinctKeys(ls) && Plain(ls) && ls != []
    ensures SetUnder(SetUnder(t, path, ls), path, ls) != SetUnder(t, path, ls)
    decreases |path|
  {
    if path == [] {
      UnfitLeaves(t, ls);
    } else if !Room(t, path[0]) {
      UnfitSection(t, path, ls);
    } else {
      var v, i := SetUnder(t, path, ls), Section(t, path[0]);
      SetUnderParts(t, path, ls);
      SetUnderParts(v, path, ls);
      SectionIsThere(t, path[0]);
      UnfitUnder(Get(t, path[0]).value, path[1..], ls);
      assert Ensure(v, path[0]) == v;
      assert SetUnder(v, path, ls).children[i] != v.children[i];
    }
  }

  /** A section without room shows in the whole document. */
  lemma UnfitDocument(t: Tree, es: seq<Settings>, k: nat)
    requires t.kind == MappingNode && Even(t) && DistinctSections(es) && k < |es|
    requires !Fits(t, es[k].path, es[k].leaves) && Plain(es[k].leaves) && es[k].leaves != []
    ensures SetAll(SetAll(t, es), es) != SetAll(t, es)
  {
    var e, v := es[k], SetAll(t, es);
    OwnSectionDecides(t, es, k);
    OwnSectionDecides(v, es, k);
    SetUnderParts(t, e.path, e.leaves);
    SetUnderParts(v, e.path, e.leaves);
    SectionIsThere(t, e.path[0]);
    SectionIsThere(v, e.path[0]);
    UnfitUnder(Get(t, e.path[0]).value, e.path[1..], e.leaves);
  }

  /** How key and value text begin tells them apart. */
  predicate Begins(l: Leaf, key: char, text: char) {
    l.key != [] && l.key[0] == key && (TextOf(l) == [] || TextOf(l)[0] == text)
  }

  lemma PlainFour(a: Leaf, b: Leaf, c: Leaf, d: Leaf)
    requires Begins(a, 'e', 't') && Begins(b, 'r', '1') && Begins(c, 'b', '1') && Begins(d, 'p', '1')
    ensures Plain([a, b, c, d])
  {
  }

  lemma PlainOne(l: Leaf, text: char)
    requires Begins(l, 'p', text) && text != 'p'
    ensures Plain([l])
  {
  }

  lemma RateLeavesArePlain()
    ensures Plain(RateLeaves())
  {
    PlainFour(SetTo("enabled", "true", "!!bool"), SetTo("requests_per_minute", "100000", "!!int"),
              SetTo("burst", "10000", "!!int"), Replace("paths", PathsNode()));
  }

  lemma ModelLeavesArePlain(mockURL: string)
    ensures Plain(ModelLeaves(mockURL))
  {
    var ls := ModelLeaves(mockURL);
    assert Last(TextOf(ls[1])) == '1' && Last(ls[0].key) == 'y' && Last(ls[1].key) == 'l';
    assert Last(TextOf(ls[0])) == 'y' && TextOf(ls[0])[0] == 'p' && ls[0].key[0] == 'a';
  }

  predicate PlainSettings(e: Settings) {
    e.leaves != [] && Plain(e.leaves)
  }

  lemma AllPlain(a: Settings, b: Settings, c: Settings, d: Settings)
    requires PlainSettings(a) && PlainSettings(b) && PlainSettings(c) && PlainSettings(d)
    ensures forall k :: 0 <= k < 4 ==> PlainSettings([a, b, c, d][k])
    ensures forall k :: 0 <= k < 3 ==> PlainSettings([a, b, d][k])
  {
  }

  lemma LoadTestSettingsArePlain(mockURL: string, k: nat)
    requires k < |LoadTestSettings(mockURL)|
    ensures PlainSettings(LoadTestSettings(mockURL)[k])
  {
    RateLeavesArePlain();
    ModelLeavesArePlain(mockURL);
    PlainOne(SetTo("provider", "local", "!!str"), 'l');
    PlainOne(SetTo("provider", "", "!!str"), ' ');
    AllPlain(RATE_SETTINGS, UPLOAD_SETTINGS, ModelSettings(mockURL), KNOWLEDGE_SETTINGS);
  }

  /**
   * The rewrite is idempotent if and only if each section it enters has room for it: its children come
   * in pairs, as those of every mapping do, or the keys to be set are there already.
   */
  lemma RewriteTwice(t: Tree, mockURL: string)
    requires t.kind == MappingNode && Even(t)
    ensures Rewritten(Rewritten(t, mockURL), mockURL) == Rewritten(t, mockURL)
            <==> AllFit(t, LoadTestSettings(mockURL))
  {
    var es := LoadTestSettings(mockURL);
    if AllFit(t, es) {
      FittingRewriteTwice(t, mockURL);
    } else {
      var k :| 0 <= k < |es| && !Fits(t, es[k].path, es[k].leaves);
      LoadTestSettingsAreDistinct(mockURL);
      LoadTestSettingsArePlain(mockURL, k);
      UnfitDocument(t, es, k);
    }
  }

  /** A document whose one section is a sequence of one item, as `upload: [item]`. */
  function OddSection(key: string, item: Tree): Tree {
    Tree(MappingNode, "", "", "", [KeyNode(key), Tree(SequenceNode, "", "", "", [item])])
  }

  lemma OddSectionDoesNotFit(key: string, item: Tree, l: Leaf)
    ensures !Fits(OddSection(key, item), [key], [l])
  {
    var t := OddSection(key, item);
    assert t.children[0].value == key;
    var c := t.children[1];
    assert Get(t, key) == Some(c);
    assert !Room(c, [l][0].key);
  }

  /** Such a document, though every mapping of it comes in pairs, is rewritten anew by every run. */
  lemma OddSectionGrows(mockURL: string, item: Tree)
    ensures var t := OddSection("upload", item);
            Rewritten(Rewritten(t, mockURL), mockURL) != Rewritten(t, mockURL)
  {
    var t, es := OddSection("upload", item), LoadTestSettings(mockURL);
    OddSectionDoesNotFit("upload", item, SetTo("provider", "local", "!!str"));
    assert es[1] == UPLOAD_SETTINGS;
    RewriteTwice(t, mockURL);
  }
}
