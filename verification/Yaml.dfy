/**
 * The rewrite of a parsed configuration in place, on nodes in the heap. A ghost shape names the nodes
 * of a tree; contracts relate the tree read from the heap before and after to the tree functions.
 */
module Yaml {
  import opened Common
  import opened YamlTree

  class Node {
    var kind: Kind
    var tag: string
    var value: string
    var note: string
    var content: seq<Node>

    constructor (kind: Kind, tag: string, value: string, content: seq<Node>)
      ensures this.kind == kind && this.tag == tag && this.value == value && note == ""
      ensures this.content == content
    {
      this.kind, this.tag, this.value, this.note, this.content := kind, tag, value, "", content;
    }
  }

  // ---- trees in the heap ------------------------------------------------------------------------

  /** The nodes of a tree, laid out as the tree is. */
  datatype Shape = Shape(node: Node, kids: Shapes)
  datatype Shapes = NoShapes | More(init: Shapes, last: Shape)

  function Len(ks: Shapes): nat {
    if ks.NoShapes? then 0 else Len(ks.init) + 1
  }

  function Nth(ks: Shapes, i: nat): Shape
    requires i < Len(ks)
  {
    if i == Len(ks.init) then ks.last else Nth(ks.init, i)
  }

  function With(ks: Shapes, i: nat, v: Shape): (r: Shapes)
    requires i < Len(ks)
    ensures Len(r) == Len(ks)
  {
    if i == Len(ks.init) then More(ks.init, v) else More(With(ks.init, i, v), ks.last)
  }

  ghost function Nodes(s: Shape): set<Node> {
    {s.node} + NodesOf(s.kids)
  }

  ghost function NodesOf(ks: Shapes): set<Node> {
    if ks.NoShapes? then {} else NodesOf(ks.init) + Nodes(ks.last)
  }

  /** No node occurs twice. */
  ghost predicate Unshared(s: Shape) {
    s.node !in NodesOf(s.kids) && AllUnshared(s.kids)
  }

  ghost predicate AllUnshared(ks: Shapes) {
    ks.More? ==> AllUnshared(ks.init) && Unshared(ks.last) && NodesOf(ks.init) !! Nodes(ks.last)
  }

  function Heads(ks: Shapes): (r: seq<Node>)
    ensures |r| == Len(ks)
  {
    if ks.NoShapes? then [] else Heads(ks.init) + [ks.last.node]
  }

  /** The nodes' contents are as the shape says. */
  ghost predicate Matches(s: Shape)
    reads Nodes(s)
  {
    s.node.content == Heads(s.kids) && AllMatch(s.kids)
  }

  ghost predicate AllMatch(ks: Shapes)
    reads NodesOf(ks)
  {
    ks.More? ==> AllMatch(ks.init) && Matches(ks.last)
  }

  ghost predicate Good(s: Shape)
    reads Nodes(s)
  {
    Unshared(s) && Matches(s)
  }

  ghost function Abs(s: Shape): Tree
    reads Nodes(s)
  {
    Tree(s.node.kind, s.node.tag, s.node.value, s.node.note, AbsAll(s.kids))
  }

  ghost function AbsAll(ks: Shapes): (r: seq<Tree>)
    reads NodesOf(ks)
    ensures |r| == Len(ks)
  {
    if ks.NoShapes? then [] else AbsAll(ks.init) + [Abs(ks.last)]
  }

  lemma {:induction false} NthIsGood(ks: Shapes, i: nat)
    requires i < Len(ks) && AllMatch(ks) && AllUnshared(ks)
    ensures Heads(ks)[i] == Nth(ks, i).node && Good(Nth(ks, i))
    ensures Nodes(Nth(ks, i)) <= NodesOf(ks) && AbsAll(ks)[i] == Abs(Nth(ks, i))
  {
    if i < Len(ks.init) {
      NthIsGood(ks.init, i);
    }
  }

  /** The tree at position `i` of a node. */
  lemma Kid(s: Shape, i: nat)
    requires Good(s) && i < Len(s.kids)
    ensures |s.node.content| == Len(s.kids) && s.node.content[i] == Nth(s.kids, i).node
    ensures Good(Nth(s.kids, i)) && Abs(s).children[i] == Abs(Nth(s.kids, i))
    ensures Nodes(Nth(s.kids, i)) <= NodesOf(s.kids) && s.node !in Nodes(Nth(s.kids, i))
  {
    assert Matches(s) && Unshared(s);
    NthIsGood(s.kids, i);
  }

  // ---- what a change leaves alone -----------------------------------------------------------------

  twostate predicate Same(n: Node)
    reads n
  {
    && n.kind == old(n.kind) && n.tag == old(n.tag) && n.value == old(n.value)
    && n.note == old(n.note) && n.content == old(n.content)
  }

  /** Of these nodes, those that were there before are as they were. */
  twostate predicate Untouched(new ns: set<Node>)
    reads ns
  {
    forall n: Node :: n in ns && old(allocated(n)) ==> Same(n)
  }

  /** All these nodes are in `base` or new. */
  twostate predicate Grows(new ns: set<Node>, new base: set<Node>) {
    forall n: Node :: n in ns ==> n in base || !old(allocated(n))
  }

  /** A new node is in no tree there was. */
  twostate lemma {:induction false} FreshIsOutside(s: Shape, new n: Node)
    requires !old(allocated(n))
    ensures n !in Nodes(s)
    decreases s
  {
    FreshIsOutsideAll(s.kids, n);
  }

  twostate lemma {:induction false} FreshIsOutsideAll(ks: Shapes, new n: Node)
    requires !old(allocated(n))
    ensures n !in NodesOf(ks)
    decreases ks
  {
    if ks.More? {
      FreshIsOutsideAll(ks.init, n);
      FreshIsOutside(ks.last, n);
    }
  }

  twostate lemma {:induction false} Framed(s: Shape)
    requires old(Matches(s)) && Untouched(Nodes(s))
    ensures Matches(s) && Abs(s) == old(Abs(s))
    decreases s
  {
    assert Same(s.node);
    FramedAll(s.kids);
  }

  twostate lemma {:induction false} FramedAll(ks: Shapes)
    requires old(AllMatch(ks)) && Untouched(NodesOf(ks))
    ensures AllMatch(ks) && AbsAll(ks) == old(AbsAll(ks))
    decreases ks
  {
    if ks.More? {
      FramedAll(ks.init);
      Framed(ks.last);
    }
  }

  // ---- one subtree in place of another --------------------------------------------------------------

  lemma {:induction false} WithIsUnshared(ks: Shapes, i: nat, v: Shape)
    requires i < Len(ks) && AllUnshared(ks) && Unshared(v)
    requires Nodes(v) !! NodesOf(ks) - Nodes(Nth(ks, i))
    ensures AllUnshared(With(ks, i, v))
    ensures Nodes(Nth(ks, i)) <= NodesOf(ks)
    ensures NodesOf(With(ks, i, v)) == NodesOf(ks) - Nodes(Nth(ks, i)) + Nodes(v)
    ensures Heads(With(ks, i, v)) == Heads(ks)[i := v.node]
  {
    if i < Len(ks.init) {
      WithIsUnshared(ks.init, i, v);
    }
  }

  /** Every subtree but the one at `i` is in place and has the value given. */
  ghost predicate OthersAre(ks: Shapes, i: nat, below: seq<Tree>)
    requires |below| == Len(ks)
    reads NodesOf(ks)
  {
    if ks.NoShapes? then true
    else if i == Len(ks.init) then AllMatch(ks.init) && AbsAll(ks.init) == Init(below)
    else OthersAre(ks.init, i, Init(below)) && Matches(ks.last) && Abs(ks.last) == Last(below)
  }

  /** A change confined to the subtree at `i` leaves the others as they were. */
  twostate lemma {:induction false} OthersFramed(ks: Shapes, new i: nat)
    requires i < Len(ks) && AllUnshared(ks) && old(AllMatch(ks))
    requires Untouched(NodesOf(ks) - Nodes(Nth(ks, i)))
    ensures OthersAre(ks, i, old(AbsAll(ks)))
    decreases ks
  {
    if i < Len(ks.init) {
      NthIsInside(ks.init, i);
      OthersFramed(ks.init, i);
      Framed(ks.last);
    } else {
      FramedAll(ks.init);
    }
  }

  lemma {:induction false} NthIsInside(ks: Shapes, i: nat)
    requires i < Len(ks)
    ensures Nodes(Nth(ks, i)) <= NodesOf(ks)
  {
    if i < Len(ks.init) {
      NthIsInside(ks.init, i);
    }
  }

  lemma {:induction false} WithIsGood(ks: Shapes, i: nat, v: Shape, below: seq<Tree>)
    requires i < Len(ks) && |below| == Len(ks) && OthersAre(ks, i, below) && Matches(v)
    ensures AllMatch(With(ks, i, v)) && AbsAll(With(ks, i, v)) == below[i := Abs(v)]
  {
    if i < Len(ks.init) {
      WithIsGood(ks.init, i, v, Init(below));
    }
  }

  function Graft(s: Shape, i: nat, v: Shape): Shape
    requires i < Len(s.kids)
  {
    s.(kids := With(s.kids, i, v))
  }

  /** `s` once had the value `t`; now the tree `v` is at `i`. */
  lemma Grafted(s: Shape, i: nat, v: Shape, t: Tree)
    requires Unshared(s) && Good(v) && i < Len(s.kids) && |t.children| == Len(s.kids)
    requires Nodes(v) !! Nodes(s) - Nodes(Nth(s.kids, i))
    requires OthersAre(s.kids, i, t.children)
    requires s.node.content == Heads(s.kids)[i := v.node]
    requires t == Tree(s.node.kind, s.node.tag, s.node.value, s.node.note, t.children)
    ensures Good(Graft(s, i, v)) && Abs(Graft(s, i, v)) == Put(t, i, Abs(v))
    ensures Nodes(Graft(s, i, v)) <= Nodes(s) + Nodes(v)
  {
    WithIsUnshared(s.kids, i, v);
    WithIsGood(s.kids, i, v, t.children);
  }

  // ---- a pair more at the end --------------------------------------------------------------------------

  function Extend(s: Shape, k: Shape, v: Shape): Shape {
    s.(kids := More(More(s.kids, k), v))
  }

  lemma OneMore(ks: Shapes, v: Shape)
    requires AllUnshared(ks) && AllMatch(ks) && Good(v) && NodesOf(ks) !! Nodes(v)
    ensures AllUnshared(More(ks, v)) && AllMatch(More(ks, v))
    ensures NodesOf(More(ks, v)) == NodesOf(ks) + Nodes(v)
    ensures Heads(More(ks, v)) == Heads(ks) + [v.node]
    ensures AbsAll(More(ks, v)) == AbsAll(ks) + [Abs(v)]
  {
  }

  lemma Extended(s: Shape, k: Shape, v: Shape)
    requires Unshared(s) && Good(k) && Good(v) && AllMatch(s.kids)
    requires Nodes(k) !! Nodes(s) && Nodes(v) !! Nodes(s) && Nodes(k) !! Nodes(v)
    requires s.node.content == Heads(s.kids) + [k.node] + [v.node]
    ensures Good(Extend(s, k, v))
    ensures Abs(Extend(s, k, v)).children == AbsAll(s.kids) + [Abs(k)] + [Abs(v)]
    ensures Nodes(Extend(s, k, v)) == Nodes(s) + Nodes(k) + Nodes(v)
  {
    OneMore(s.kids, k);
    OneMore(More(s.kids, k), v);
  }

  // ---- the operations on one node ---------------------------------------------------------------------

  /** The first pair with the key, as `Find` on the tree has it. */
  method FindPair(parent: Node, key: string, ghost s: Shape) returns (r: Option<nat>)
    requires parent == s.node && Good(s)
    ensures r == Find(Abs(s).children, key, 0)
    ensures r.Some? ==> r.value + 1 < |parent.content|
  {
    var i := 0;
    ghost var c := Abs(s).children;
    while i + 1 < |parent.content|
      invariant 0 <= i <= |parent.content| + 1
      invariant Find(c, key, i) == Find(c, key, 0)
    {
      Framed(s);
      Kid(s, i);
      if parent.content[i].value == key {
        return Some(i);
      }
      i := i + 2;
    }
    Framed(s);
    return None;
  }

  /** `mapGet` */
  method MapGet(parent: Node, key: string, ghost s: Shape) returns (r: Option<Node>)
    requires parent == s.node && Good(s)
    ensures r.Some? <==> Get(Abs(s), key).Some?
    ensures r.Some? ==> r.value == Nth(s.kids, At(Abs(s), key)).node
  {
    if parent.kind != MappingNode {
      return None;
    }
    var i := FindPair(parent, key, s);
    if i.None? {
      return None;
    }
    Framed(s);
    Kid(s, i.value + 1);
    return Some(parent.content[i.value + 1]);
  }

  method NewScalar(tag: string, value: string) returns (n: Node, ghost k: Shape)
    ensures fresh(n) && k == Shape(n, NoShapes) && Good(k) && Abs(k) == Scalar(tag, value)
  {
    n := new Node(ScalarNode, tag, value, []);
    k := Shape(n, NoShapes);
  }

  method NewMapping() returns (n: Node, ghost k: Shape)
    ensures fresh(n) && k == Shape(n, NoShapes) && Good(k) && Abs(k) == EMPTY_MAPPING
  {
    n := new Node(MappingNode, "", "", []);
    k := Shape(n, NoShapes);
  }

  method AppendNodes(parent: Node, key: Node, value: Node, ghost s: Shape, ghost k: Shape, ghost v: Shape)
    requires parent == s.node && key == k.node && value == v.node && Good(s) && Good(k) && Good(v)
    requires Nodes(k) !! Nodes(s) && Nodes(v) !! Nodes(s) && Nodes(k) !! Nodes(v)
    modifies parent
    ensures Good(Extend(s, k, v)) && Nodes(Extend(s, k, v)) == Nodes(s) + Nodes(k) + Nodes(v)
    ensures Abs(Extend(s, k, v))
            == old(Abs(s)).(children := old(Abs(s)).children + [old(Abs(k))] + [old(Abs(v))])
  {
    parent.content := parent.content + [key, value];
    assert parent.content == old(parent.content) + [key] + [value];
    FramedAll(s.kids);
    Framed(k);
    Framed(v);
    Extended(s, k, v);
  }

  method AppendPair(parent: Node, key: string, value: Node, ghost s: Shape, ghost v: Shape)
    returns (ghost s': Shape)
    requires parent == s.node && Good(s) && value == v.node && Good(v) && Nodes(s) !! Nodes(v)
    modifies parent
    ensures Good(s') && s'.node == parent && Abs(s') == Append(old(Abs(s)), key, old(Abs(v)))
    ensures Len(s'.kids) == Len(s.kids) + 2 && Nth(s'.kids, Len(s.kids) + 1) == v
    ensures Grows(Nodes(s'), Nodes(s) + Nodes(v))
  {
    ghost var k: Shape;
    var keyNode: Node;
    keyNode, k := NewScalar("!!str", key);
    FreshIsOutside(s, keyNode);
    FreshIsOutside(v, keyNode);
    Framed(s);
    Framed(v);
    AppendNodes(parent, keyNode, value, s, k, v);
    s' := Extend(s, k, v);
  }

  method ReplaceValue(parent: Node, i: nat, value: Node, ghost s: Shape, ghost v: Shape)
    requires parent == s.node && Good(s) && value == v.node && Good(v) && Nodes(s) !! Nodes(v)
    requires i < Len(s.kids)
    modifies parent
    ensures Good(Graft(s, i, v)) && Abs(Graft(s, i, v)) == Put(old(Abs(s)), i, old(Abs(v)))
    ensures Nodes(Graft(s, i, v)) <= Nodes(s) + Nodes(v)
  {
    parent.content := parent.content[i := value];
    OthersFramed(s.kids, i);
    Framed(v);
    Grafted(s, i, v, old(Abs(s)));
  }

  lemma {:induction false} NthOfWith(ks: Shapes, i: nat, v: Shape)
    requires i < Len(ks)
    ensures Nth(With(ks, i, v), i) == v
  {
    if i < Len(ks.init) {
      NthOfWith(ks.init, i, v);
    }
  }

  /** `mapSetNode` */
  method MapSetNode(parent: Node, key: string, value: Node, ghost s: Shape, ghost v: Shape)
    returns (ghost s': Shape)
    requires parent == s.node && Good(s) && value == v.node && Good(v) && Nodes(s) !! Nodes(v)
    modifies parent
    ensures Good(s') && s'.node == parent && Abs(s') == SetNode(old(Abs(s)), key, old(Abs(v)))
    ensures Grows(Nodes(s'), Nodes(s) + Nodes(v))
    ensures var i := Section(old(Abs(s)), key); i < Len(s'.kids) && Nth(s'.kids, i) == v
  {
    var i := FindPair(parent, key, s);
    Framed(s);
    Framed(v);
    if i.Some? {
      ReplaceValue(parent, i.value + 1, value, s, v);
      s' := Graft(s, i.value + 1, v);
      NthOfWith(s.kids, i.value + 1, v);
    } else {
      s' := AppendPair(parent, key, value, s, v);
    }
  }

  /** The value and the tag of one node change. */
  method Overwrite(n: Node, value: string, tag: string, ghost s: Shape)
    requires n == s.node && Good(s)
    modifies n
    ensures Good(s) && Abs(s) == old(Abs(s)).(value := value, tag := tag)
  {
    n.value := value;
    n.tag := tag;
    FramedAll(s.kids);
  }

  lemma {:induction false} WithSame(ks: Shapes, i: nat)
    requires i < Len(ks)
    ensures With(ks, i, Nth(ks, i)) == ks
  {
    if i < Len(ks.init) {
      WithSame(ks.init, i);
    }
  }

  /** The subtree at `i` was changed to `v` at the same node, all else below `s` left alone. */
  twostate lemma Lifted(s: Shape, new i: nat, new v: Shape)
    requires old(Good(s)) && i < Len(s.kids) && Good(v) && v.node == Nth(s.kids, i).node
    requires Untouched(Nodes(s) - Nodes(Nth(s.kids, i)))
    requires Grows(Nodes(v), Nodes(Nth(s.kids, i)))
    ensures Good(Graft(s, i, v)) && Abs(Graft(s, i, v)) == Put(old(Abs(s)), i, Abs(v))
    ensures Nodes(Graft(s, i, v)) <= Nodes(s) + Nodes(v)
  {
    WithIsUnsharedParts(s, i);
    assert Same(s.node);
    OthersFramed(s.kids, i);
    NewKidIsApart(s, i, v);
    NthOfHeads(s.kids, i);
    Grafted(s, i, v, old(Abs(s)));
  }

  lemma {:induction false} NthOfHeads(ks: Shapes, i: nat)
    requires i < Len(ks)
    ensures Heads(ks)[i] == Nth(ks, i).node
  {
    if i < Len(ks.init) {
      NthOfHeads(ks.init, i);
    }
  }

  lemma WithIsUnsharedParts(s: Shape, i: nat)
    requires Unshared(s) && i < Len(s.kids)
    ensures s.node !in NodesOf(s.kids) && AllUnshared(s.kids)
    ensures Nodes(Nth(s.kids, i)) <= NodesOf(s.kids) && s.node !in Nodes(Nth(s.kids, i))
  {
    NthIsInside(s.kids, i);
  }

  twostate lemma NewKidIsApart(s: Shape, new i: nat, new v: Shape)
    requires i < Len(s.kids) && Grows(Nodes(v), Nodes(Nth(s.kids, i)))
    requires Unshared(s)
    ensures Nodes(v) !! Nodes(s) - Nodes(Nth(s.kids, i))
  {
    forall n: Node | n in Nodes(v) && n !in Nodes(Nth(s.kids, i))
      ensures n !in Nodes(s)
    {
      FreshIsOutside(s, n);
    }
  }

  /** `mapSet` */
  method MapSet(parent: Node, key: string, value: string, tag: string, ghost s: Shape)
    returns (ghost s': Shape)
    requires parent == s.node && Good(s)
    modifies Nodes(s)
    ensures Good(s') && s'.node == parent && Abs(s') == SetScalar(old(Abs(s)), key, value, tag)
    ensures Grows(Nodes(s'), Nodes(s))
  {
    var i := FindPair(parent, key, s);
    Framed(s);
    if i.Some? {
      Kid(s, i.value + 1);
      WithSame(s.kids, i.value + 1);
      WithIsUnsharedParts(s, i.value + 1);
      ghost var kid := Nth(s.kids, i.value + 1);
      Overwrite(parent.content[i.value + 1], value, tag, kid);
      Lifted(s, i.value + 1, kid);
      s' := s;
    } else {
      ghost var v: Shape;
      var node: Node;
      node, v := NewScalar(tag, value);
      FreshIsOutside(s, node);
      Framed(s);
      s' := AppendPair(parent, key, node, s, v);
    }
  }

  /** `mapGetOrCreate` */
  method MapGetOrCreate(parent: Node, key: string, ghost s: Shape)
    returns (child: Node, ghost s': Shape, ghost i: nat)
    requires parent == s.node && Good(s)
    modifies parent
    ensures Good(s') && s'.node == parent && Abs(s') == Ensure(old(Abs(s)), key)
    ensures Grows(Nodes(s'), Nodes(s))
    ensures i == Section(old(Abs(s)), key) && i < Len(s'.kids) && Nth(s'.kids, i).node == child
  {
    i := Section(Abs(s), key);
    var found := MapGet(parent, key, s);
    Framed(s);
    if found.Some? {
      return found.value, s, i;
    }
    ghost var v: Shape;
    child, v := NewMapping();
    FreshIsOutside(s, child);
    Framed(s);
    s' := MapSetNode(parent, key, child, s, v);
  }

  // ---- the sections -------------------------------------------------------------------------------------

  lemma SetLeavesThen(t: Tree, ls: seq<Leaf>, l: Leaf)
    ensures SetLeaves(t, ls + [l]) == SetLeaf(SetLeaves(t, ls), l)
  {
    assert Init(ls + [l]) == ls;
  }

  lemma SetLeavesOfTwo(t: Tree, a: Leaf, b: Leaf)
    ensures SetLeaves(t, [a]) == SetLeaf(t, a)
    ensures SetLeaves(t, [a, b]) == SetLeaf(SetLeaf(t, a), b)
  {
    SetLeavesThen(t, [], a);
    assert [] + [a] == [a];
    SetLeavesThen(t, [a], b);
  }

  lemma SetLeavesOfFour(t: Tree, a: Leaf, b: Leaf, c: Leaf, d: Leaf)
    ensures SetLeaves(t, [a, b, c, d]) == SetLeaf(SetLeaf(SetLeaf(SetLeaf(t, a), b), c), d)
  {
    SetLeavesOfTwo(t, a, b);
    assert [a, b] + [c] == [a, b, c] && [a, b, c] + [d] == [a, b, c, d];
    SetLeavesThen(t, [a, b], c);
    SetLeavesThen(t, [a, b, c], d);
  }

  /** Two `mapSet` in a row. */
  method MapSetTwo(parent: Node, key: string, value: string, tag: string,
                   key': string, value': string, tag': string, ghost s: Shape)
    returns (ghost s': Shape)
    requires parent == s.node && Good(s)
    modifies Nodes(s)
    ensures Good(s') && s'.node == parent
    ensures Abs(s') == SetScalar(SetScalar(old(Abs(s)), key, value, tag), key', value', tag')
    ensures Grows(Nodes(s'), Nodes(s))
  {
    s' := MapSet(parent, key, value, tag, s);
    s' := MapSet(parent, key', value', tag', s');
  }

  method SetEntry(entry: Node, ghost s: Shape) returns (ghost s': Shape)
    requires entry == s.node && Good(s)
    modifies Nodes(s)
    ensures Good(s') && s'.node == entry && Abs(s') == SetLeaves(old(Abs(s)), ENTRY_LEAVES)
    ensures Grows(Nodes(s'), Nodes(s))
  {
    ghost var t := Abs(s);
    SetLeavesOfFour(t, SetTo("enabled", "true", "!!bool"), SetTo("prefix", "/api/", "!!str"),
                    SetTo("requests_per_minute", "100000", "!!int"), SetTo("burst", "10000", "!!int"));
    s' := MapSetTwo(entry, "enabled", "true", "!!bool", "prefix", "/api/", "!!str", s);
    s' := MapSetTwo(entry, "requests_per_minute", "100000", "!!int", "burst", "10000", "!!int", s');
  }

  /** The one entry of the path rules and the list that holds it. */
  method NewPaths() returns (paths: Node, ghost v: Shape)
    ensures Good(v) && v.node == paths && Abs(v) == PathsNode() && Grows(Nodes(v), {})
  {
    ghost var e: Shape;
    var entry: Node;
    entry, e := NewMapping();
    e := SetEntry(entry, e);
    paths := NewList(entry, e);
    v := Shape(paths, More(NoShapes, e));
  }

  method NewList(entry: Node, ghost e: Shape) returns (paths: Node)
    requires entry == e.node && Good(e)
    ensures var v := Shape(paths, More(NoShapes, e));
            && fresh(paths) && Good(v) && Nodes(v) == Nodes(e) + {paths}
            && Abs(v) == Tree(SequenceNode, "", "", "", [old(Abs(e))])
  {
    paths := new Node(SequenceNode, "", "", [entry]);
    Framed(e);
    FreshIsOutside(e, paths);
    var ks := More(NoShapes, e);
    assert Heads(ks) == [entry] && AbsAll(ks) == [Abs(e)];
    assert NodesOf(ks) == {} + Nodes(e) && Nodes(Shape(paths, ks)) == {paths} + NodesOf(ks);
  }

  method SetRateLimits(section: Node, ghost s: Shape) returns (ghost s': Shape)
    requires section == s.node && Good(s)
    modifies Nodes(s)
    ensures Good(s') && s'.node == section && Abs(s') == SetLeaves(old(Abs(s)), RateLeaves())
    ensures Grows(Nodes(s'), Nodes(s))
  {
    ghost var t := Abs(s);
    SetLeavesOfFour(t, SetTo("enabled", "true", "!!bool"), SetTo("requests_per_minute", "100000", "!!int"),
                    SetTo("burst", "10000", "!!int"), Replace("paths", PathsNode()));
    s' := MapSetTwo(section, "enabled", "true", "!!bool", "requests_per_minute", "100000", "!!int", s);
    s' := SetBurstAndPaths(section, s');
  }

  method SetBurstAndPaths(section: Node, ghost s: Shape) returns (ghost s': Shape)
    requires section == s.node && Good(s)
    modifies Nodes(s)
    ensures Good(s') && s'.node == section
    ensures Abs(s') == SetNode(SetScalar(old(Abs(s)), "burst", "10000", "!!int"), "paths", PathsNode())
    ensures Grows(Nodes(s'), Nodes(s))
  {
    s' := MapSet(section, "burst", "10000", "!!int", s);
    s' := SetPaths(section, s');
  }

  method SetPaths(section: Node, ghost s: Shape) returns (ghost s': Shape)
    requires section == s.node && Good(s)
    modifies section
    ensures Good(s') && s'.node == section && Abs(s') == SetNode(old(Abs(s)), "paths", PathsNode())
    ensures Grows(Nodes(s'), Nodes(s))
  {
    ghost var v: Shape;
    var paths: Node;
    paths, v := NewPaths();
    NewShapeIsOutside(s, Nodes(v));
    Framed(s);
    s' := MapSetNode(section, "paths", paths, s, v);
  }

  twostate lemma NewShapeIsOutside(s: Shape, new ns: set<Node>)
    requires Grows(ns, {})
    ensures ns !! Nodes(s)
  {
    forall n: Node | n in ns
      ensures n !in Nodes(s)
    {
      FreshIsOutside(s, n);
    }
  }

  method SetModel(section: Node, mockURL: string, ghost s: Shape) returns (ghost s': Shape)
    requires section == s.node && Good(s)
    modifies Nodes(s)
    ensures Good(s') && s'.node == section && Abs(s') == SetLeaves(old(Abs(s)), ModelLeaves(mockURL))
    ensures Grows(Nodes(s'), Nodes(s))
  {
    ghost var t := Abs(s);
    s' := MapSet(section, "api_key", "perf-not-a-real-key", "!!str", s);
    s' := MapSet(section, "base_url", TrimSlash(mockURL) + "/v1", "!!str", s');
    SetLeavesOfTwo(t, ModelLeaves(mockURL)[0], ModelLeaves(mockURL)[1]);
  }

  method RelaxRateLimits(doc: Node, ghost s: Shape) returns (ghost s': Shape)
    requires doc == s.node && Good(s)
    modifies Nodes(s)
    ensures Good(s') && s'.node == doc
    ensures Abs(s') == SetUnder(old(Abs(s)), RATE_SETTINGS.path, RATE_SETTINGS.leaves)
    ensures Grows(Nodes(s'), Nodes(s))
  {
    ghost var i: nat;
    var security: Node;
    security, s', i := MapGetOrCreate(doc, "security", s);
    label Entered:
    ghost var inner := Nth(s'.kids, i);
    Kid(s', i);
    ghost var v := RelaxInSecurity(security, inner);
    Lifted@Entered(s', i, v);
    s' := Graft(s', i, v);
  }

  method RelaxInSecurity(security: Node, ghost s: Shape) returns (ghost s': Shape)
    requires security == s.node && Good(s)
    modifies Nodes(s)
    ensures Good(s') && s'.node == security
    ensures Abs(s') == SetUnder(old(Abs(s)), ["rate_limiting"], RATE_SETTINGS.leaves)
    ensures Grows(Nodes(s'), Nodes(s))
  {
    ghost var i: nat;
    var rateLimiting: Node;
    rateLimiting, s', i := MapGetOrCreate(security, "rate_limiting", s);
    label Entered:
    ghost var inner := Nth(s'.kids, i);
    Kid(s', i);
    ghost var v := SetRateLimits(rateLimiting, inner);
    Lifted@Entered(s', i, v);
    s' := Graft(s', i, v);
  }

  /** One section below the document. */
  method UseLocalUploads(doc: Node, ghost s: Shape) returns (ghost s': Shape)
    requires doc == s.node && Good(s)
    modifies Nodes(s)
    ensures Good(s') && s'.node == doc
    ensures Abs(s') == SetUnder(old(Abs(s)), UPLOAD_SETTINGS.path, UPLOAD_SETTINGS.leaves)
    ensures Grows(Nodes(s'), Nodes(s))
  {
    s' := SetProvider(doc, "upload", "local", s);
  }

  method UseNoKnowledge(doc: Node, ghost s: Shape) returns (ghost s': Shape)
    requires doc == s.node && Good(s)
    modifies Nodes(s)
    ensures Good(s') && s'.node == doc
    ensures Abs(s') == SetUnder(old(Abs(s)), KNOWLEDGE_SETTINGS.path, KNOWLEDGE_SETTINGS.leaves)
    ensures Grows(Nodes(s'), Nodes(s))
  {
    s' := SetProvider(doc, "knowledge", "", s);
  }

  method SetProvider(doc: Node, key: string, provider: string, ghost s: Shape) returns (ghost s': Shape)
    requires doc == s.node && Good(s)
    modifies Nodes(s)
    ensures Good(s') && s'.node == doc
    ensures Abs(s') == SetUnder(old(Abs(s)), [key], [SetTo("provider", provider, "!!str")])
    ensures Grows(Nodes(s'), Nodes(s))
  {
    ghost var i: nat;
    var section: Node;
    section, s', i := MapGetOrCreate(doc, key, s);
    label Entered:
    ghost var inner := Nth(s'.kids, i);
    ghost var l := SetTo("provider", provider, "!!str");
    Kid(s', i);
    SetLeavesOfTwo(Abs(inner), l, l);
    ghost var v := MapSet(section, "provider", provider, "!!str", inner);
    Lifted@Entered(s', i, v);
    s' := Graft(s', i, v);
  }

  method UseMockModel(doc: Node, mockURL: string, ghost s: Shape) returns (ghost s': Shape)
    requires doc == s.node && Good(s)
    modifies Nodes(s)
    ensures Good(s') && s'.node == doc
    ensures Abs(s') == SetUnder(old(Abs(s)), ["ai", "openai"], ModelLeaves(mockURL))
    ensures Grows(Nodes(s'), Nodes(s))
  {
    ghost var i: nat;
    var ai: Node;
    ai, s', i := MapGetOrCreate(doc, "ai", s);
    label Entered:
    ghost var inner := Nth(s'.kids, i);
    Kid(s', i);
    ghost var v := UseMockInAi(ai, mockURL, inner);
    Lifted@Entered(s', i, v);
    s' := Graft(s', i, v);
  }

  method UseMockInAi(ai: Node, mockURL: string, ghost s: Shape) returns (ghost s': Shape)
    requires ai == s.node && Good(s)
    modifies Nodes(s)
    ensures Good(s') && s'.node == ai
    ensures Abs(s') == SetUnder(old(Abs(s)), ["openai"], ModelLeaves(mockURL))
    ensures Grows(Nodes(s'), Nodes(s))
  {
    ghost var i: nat;
    var openai: Node;
    openai, s', i := MapGetOrCreate(ai, "openai", s);
    label Entered:
    ghost var inner := Nth(s'.kids, i);
    Kid(s', i);
    ghost var v := SetModel(openai, mockURL, inner);
    Lifted@Entered(s', i, v);
    s' := Graft(s', i, v);
  }

  // ---- the whole rewrite ----------------------------------------------------------------------------------

  lemma SetAllThen(t: Tree, es: seq<Settings>, e: Settings)
    ensures SetAll(t, es + [e]) == SetUnder(SetAll(t, es), e.path, e.leaves)
  {
    assert Init(es + [e]) == es;
  }

  lemma SetAllOfThree(t: Tree, a: Settings, b: Settings, d: Settings)
    ensures SetAll(t, [a, b]) == SetUnder(SetUnder(t, a.path, a.leaves), b.path, b.leaves)
    ensures SetAll(t, [a, b, d]) == SetUnder(SetAll(t, [a, b]), d.path, d.leaves)
  {
    assert [] + [a] == [a] && [a] + [b] == [a, b] && [a, b] + [d] == [a, b, d];
    SetAllThen(t, [], a);
    SetAllThen(t, [a], b);
    SetAllThen(t, [a, b], d);
  }

  lemma SetAllOfFour(t: Tree, a: Settings, b: Settings, c: Settings, d: Settings)
    ensures SetAll(t, [a, b, c, d]) == SetUnder(SetAll(t, [a, b, c]), d.path, d.leaves)
  {
    assert [a, b, c] + [d] == [a, b, c, d];
    SetAllThen(t, [a, b, c], d);
  }

  function WithModel(t: Tree, mockURL: string): Tree {
    if mockURL == "" then t else SetUnder(t, ["ai", "openai"], ModelLeaves(mockURL))
  }

  /** The settings in the order the code makes them. */
  lemma RewrittenInOrder(t: Tree, mockURL: string)
    ensures Rewritten(t, mockURL)
            == SetUnder(WithModel(SetAll(t, [RATE_SETTINGS, UPLOAD_SETTINGS]), mockURL),
                        KNOWLEDGE_SETTINGS.path, KNOWLEDGE_SETTINGS.leaves)
  {
    SetAllOfThree(t, RATE_SETTINGS, UPLOAD_SETTINGS, KNOWLEDGE_SETTINGS);
    SetAllOfThree(t, RATE_SETTINGS, UPLOAD_SETTINGS, ModelSettings(mockURL));
    SetAllOfFour(t, RATE_SETTINGS, UPLOAD_SETTINGS, ModelSettings(mockURL), KNOWLEDGE_SETTINGS);
  }

  method RewriteLimitsAndUploads(doc: Node, ghost s: Shape) returns (ghost s': Shape)
    requires doc == s.node && Good(s)
    modifies Nodes(s)
    ensures Good(s') && s'.node == doc
    ensures Abs(s') == SetAll(old(Abs(s)), [RATE_SETTINGS, UPLOAD_SETTINGS])
    ensures Grows(Nodes(s'), Nodes(s))
  {
    SetAllOfThree(Abs(s), RATE_SETTINGS, UPLOAD_SETTINGS, KNOWLEDGE_SETTINGS);
    s' := RelaxRateLimits(doc, s);
    s' := UseLocalUploads(doc, s');
  }

  method RewriteModel(doc: Node, mockURL: string, ghost s: Shape) returns (ghost s': Shape)
    requires doc == s.node && Good(s)
    modifies Nodes(s)
    ensures Good(s') && s'.node == doc && Grows(Nodes(s'), Nodes(s))
    ensures Abs(s') == WithModel(old(Abs(s)), mockURL)
  {
    s' := s;
    if mockURL != "" {
      s' := UseMockModel(doc, mockURL, s);
    }
  }

  method RewriteDocument(doc: Node, mockURL: string, ghost s: Shape) returns (ghost s': Shape)
    requires doc == s.node && Good(s)
    modifies Nodes(s)
    ensures Good(s') && s'.node == doc && Abs(s') == Rewritten(old(Abs(s)), mockURL)
    ensures Grows(Nodes(s'), Nodes(s))
  {
    RewrittenInOrder(Abs(s), mockURL);
    s' := RewriteLimitsAndUploads(doc, s);
    s' := RewriteModel(doc, mockURL, s');
    s' := UseNoKnowledge(doc, s');
  }

  /**
   * `genLoadTestConfig` between reading and writing the file: a root without a top-level mapping is
   * refused and left alone; otherwise its first child is rewritten in place and nothing else changes.
   */
  method GenLoadTestConfig(root: Node, mockURL: string, ghost s: Shape) returns (ok: bool, ghost s': Shape)
    requires root == s.node && Good(s)
    modifies Nodes(s)
    ensures ok <==> old(Abs(s)).children != [] && old(Abs(s)).children[0].kind == MappingNode
    ensures Good(s') && s'.node == root && Grows(Nodes(s'), Nodes(s))
    ensures Abs(s') == if ok then Put(old(Abs(s)), 0, Rewritten(old(Abs(s)).children[0], mockURL))
                       else old(Abs(s))
  {
    s' := s;
    if |root.content| == 0 {
      return false, s;
    }
    Kid(s, 0);
    var doc := root.content[0];
    if doc.kind != MappingNode {
      return false, s;
    }
    ghost var v := RewriteDocument(doc, mockURL, Nth(s.kids, 0));
    Lifted(s, 0, v);
    return true, Graft(s, 0, v);
  }
}
