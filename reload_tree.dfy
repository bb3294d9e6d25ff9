/** Reading back the hierarchy Save writes: block by block, the reader
    rebuilds the joint list in the order Save walked the tree. */
module ReloadTree {
  import opened Options
  import opened Text
  import opened Skeleton
  import opened LoadSpec
  import opened LoadFacts
  import opened SaveSpec
  import opened Reload
  import opened SaveWords

  /** A joint as the reader rebuilds it from its block: no samples yet. */
  function Bare(n: Node): Node {
    n.(motionPos := map[], motionRot := map[])
  }

  /** The joint list once the blocks of the first k joints have been read:
      each joint with the children among the first k. */
  function Rebuilt(nodes: seq<Node>, k: nat): (r: seq<Node>)
    requires k <= |nodes|
    ensures |r| == k
  {
    seq(k, i requires 0 <= i < k => Bare(nodes[i]).(children := ChildrenOf(nodes, i, k)))
  }

  /** The list right after the head line of joint c: c is new and bare, and
      listed among its parent's children. */
  function Opened(nodes: seq<Node>, c: nat): (r: seq<Node>)
    requires c < |nodes|
    ensures |r| == c + 1
  {
    Rebuilt(nodes, c + 1)[c := NewNode(nodes[c].parent, nodes[c].name)]
  }

  /** A tree as the parser builds it. */
  predicate Tree(nodes: seq<Node>) {
    Linked(nodes) && PreOrder(nodes) && ChildrenAfter(nodes)
  }

  /** The reader inside the hierarchy, before the name index exists. */
  predicate Reading(s: State) {
    s.mode == Hierarchy && s.dic == map[]
  }

  /** The reader with the first k joints read and target t. */
  function At(s: State, nodes: seq<Node>, k: nat, t: Option<nat>): State
    requires k <= |nodes|
  {
    s.(nodes := Rebuilt(nodes, k), target := t)
  }

  lemma AtValid(s: State, nodes: seq<Node>, k: nat, t: Option<nat>)
    requires ParentsBefore(nodes) && k <= |nodes| && s.dic == map[]
    requires s.root.Some? ==> s.root.value < k
    requires t.Some? ==> t.value < k
    ensures Valid(At(s, nodes, k, t))
  {
    var r := Rebuilt(nodes, k);
    assert forall i :: 0 <= i < k ==> r[i].parent == nodes[i].parent;
  }

  /** Where the children of a from the j-th on begin. */
  function NextAt(nodes: seq<Node>, a: nat, j: nat): nat
    requires ChildrenAfter(nodes) && a < |nodes| && j <= |nodes[a].children|
  {
    if j < |nodes[a].children| then nodes[a].children[j] else SubtreeEnd(nodes, a)
  }

  // ---------------------------------------------------------------------------
  // The joint list, line by line
  // ---------------------------------------------------------------------------

  /** The head line of joint c below its parent p lists it last and as p's
      last child. */
  lemma JointOpens(nodes: seq<Node>, c: nat, p: nat)
    requires ParentsBefore(nodes) && c < |nodes| && nodes[c].parent == Some(p)
    ensures var r := Rebuilt(nodes, c);
      r[p := r[p].(children := r[p].children + [c])] + [NewNode(Some(p), nodes[c].name)] == Opened(nodes, c)
  {
    var r := Rebuilt(nodes, c);
    var a := r[p := r[p].(children := r[p].children + [c])] + [NewNode(Some(p), nodes[c].name)];
    var b := Opened(nodes, c);
    forall i | 0 <= i < c + 1
      ensures a[i] == b[i]
    {
      if i < c {
        assert ChildrenOf(nodes, i, c + 1) == ChildrenOf(nodes, i, c) + (if i == p then [c] else []);
      }
    }
  }

  /** The ROOT line of joint 0 opens it. */
  lemma RootOpens(nodes: seq<Node>)
    requires |nodes| > 0 && nodes[0].parent.None?
    ensures [] + [NewNode(None, nodes[0].name)] == Opened(nodes, 0)
  {
  }

  /** Offset and channels complete an opened joint. */
  lemma OpenedFill(nodes: seq<Node>, c: nat)
    requires ParentsBefore(nodes) && c < |nodes|
    ensures var o := Opened(nodes, c);
      var o1 := o[c := o[c].(offset := nodes[c].offset)];
      o1[c := o1[c].(channels := o1[c].channels + nodes[c].channels)] == Rebuilt(nodes, c + 1)
  {
    NoChildrenYet(nodes, c, c + 1);
    var o := Opened(nodes, c);
    var o1 := o[c := o[c].(offset := nodes[c].offset)];
    var o2 := o1[c := o1[c].(channels := o1[c].channels + nodes[c].channels)];
    assert [] + nodes[c].channels == nodes[c].channels;
    assert o2[c] == Rebuilt(nodes, c + 1)[c];
  }

  /** The full list rebuilt is the list saved, without samples. */
  lemma RebuiltAll(nodes: seq<Node>)
    requires Linked(nodes)
    ensures SameShape(nodes, Rebuilt(nodes, |nodes|))
    ensures forall i, f :: 0 <= i < |nodes| ==>
      Rebuilt(nodes, |nodes|)[i].GetMotionPos(f) == Zero && Rebuilt(nodes, |nodes|)[i].GetMotionRot(f) == Zero
  {
    var r := Rebuilt(nodes, |nodes|);
    forall i | 0 <= i < |nodes|
      ensures r[i] == nodes[i].(motionPos := r[i].motionPos, motionRot := r[i].motionRot)
    {
      assert nodes[i].children == ChildrenOf(nodes, i, |nodes|);
    }
  }

  /** After the subtree of the j-th child of a comes the next child, or the
      end of the subtree of a. */
  lemma SiblingNext(nodes: seq<Node>, a: nat, j: nat)
    requires Tree(nodes) && a < |nodes| && j < |nodes[a].children|
    ensures SubtreeEnd(nodes, nodes[a].children[j]) == NextAt(nodes, a, j + 1)
  {
    if j + 1 < |nodes[a].children| {
      ChildAfterChild(nodes, a, j);
    } else {
      LastChildEnd(nodes, a);
    }
  }

  // ---------------------------------------------------------------------------
  // Blocks
  // ---------------------------------------------------------------------------

  /** Brace, offset and channels lines complete the opened joint c. */
  lemma HeadFill(ff: FloatFormat, nodes: seq<Node>, c: nat, s: State)
    requires ParentsBefore(nodes) && Readable(ff, nodes) && c < |nodes|
    requires Valid(s) && Reading(s) && s.nodes == Opened(nodes, c) && s.target == Some(c)
    ensures Reads(ff, s, [["{"], OffsetWords(ff, nodes[c].offset), ChannelWords(nodes[c].channels)], At(s, nodes, c + 1, Some(c)))
  {
    var n := nodes[c];
    BraceLine(ff, s);
    OffsetLine(ff, s, n.offset);
    var s1 := s.(nodes := s.nodes[c := s.nodes[c].(offset := n.offset)]);
    ChannelsLine(ff, s1, n.channels);
    OpenedFill(nodes, c);
    var s2 := WithChannels(s1, n.channels);
    assert s2 == At(s, nodes, c + 1, Some(c));
    ThenReads(ff, s, [["{"]], s, [OffsetWords(ff, n.offset)], s1);
    ThenReads(ff, s, [["{"]] + [OffsetWords(ff, n.offset)], s1, [ChannelWords(n.channels)], s2);
    Cat3(["{"], OffsetWords(ff, n.offset), ChannelWords(n.channels));
  }

  /** The closing brace of the block of c, read with its subtree, moves the
      target to c's parent. */
  lemma CloseBlock(ff: FloatFormat, nodes: seq<Node>, c: nat, s: State)
    requires Tree(nodes) && c < |nodes|
    requires Valid(At(s, nodes, SubtreeEnd(nodes, c), Some(c))) && Reading(s)
    ensures Reads(ff, At(s, nodes, SubtreeEnd(nodes, c), Some(c)), [["}"]], At(s, nodes, SubtreeEnd(nodes, c), nodes[c].parent))
  {
    var e := SubtreeEnd(nodes, c);
    CloseLine(ff, At(s, nodes, e, Some(c)));
    assert Rebuilt(nodes, e)[c].parent == nodes[c].parent;
  }

  /** A block body read from the opened joint c leaves the whole subtree of c
      read and the target back at c's parent. */
  lemma {:induction false} BodyReads(ff: FloatFormat, nodes: seq<Node>, c: nat, leaf: Vec3, s: State)
    requires Tree(nodes) && Readable(ff, nodes) && c < |nodes|
    requires Valid(s) && Reading(s) && s.nodes == Opened(nodes, c) && s.target == Some(c)
    ensures Reads(ff, s, BodyWords(ff, nodes, c, leaf), At(s, nodes, SubtreeEnd(nodes, c), nodes[c].parent))
    decreases |nodes| - c, |nodes[c].children| + 2, 0
  {
    var n := nodes[c];
    var head := [["{"], OffsetWords(ff, n.offset), ChannelWords(n.channels)];
    var inner := InnerWords(ff, nodes, c, leaf);
    var e := SubtreeEnd(nodes, c);
    HeadFill(ff, nodes, c, s);
    var s2 := At(s, nodes, c + 1, Some(c));
    InnerReads(ff, nodes, c, leaf, s2);
    assert At(s2, nodes, e, Some(c)) == At(s, nodes, e, Some(c));
    CloseBlock(ff, nodes, c, s);
    ThenReads(ff, s2, inner, At(s, nodes, e, Some(c)), [["}"]], At(s, nodes, e, n.parent));
    ThenReads(ff, s, head, s2, inner + [["}"]], At(s, nodes, e, n.parent));
  }

  /** What is inside the block of c, read with c complete, leaves the whole
      subtree of c read. */
  lemma {:induction false} InnerReads(ff: FloatFormat, nodes: seq<Node>, c: nat, leaf: Vec3, s: State)
    requires Tree(nodes) && Readable(ff, nodes) && c < |nodes|
    requires Valid(s) && Reading(s) && s.nodes == Rebuilt(nodes, c + 1) && s.target == Some(c)
    ensures Reads(ff, s, InnerWords(ff, nodes, c, leaf), At(s, nodes, SubtreeEnd(nodes, c), Some(c)))
    decreases |nodes| - c, |nodes[c].children| + 1, 0
  {
    if nodes[c].children == [] {
      LeafEnd(nodes, c);
      EndSiteLine(ff, s, ["{"], OffsetWords(ff, leaf), ["}"]);
      assert At(s, nodes, c + 1, Some(c)) == s;
    } else {
      FirstChild(nodes, c);
      ChildrenReads(ff, nodes, c, 0, s);
    }
  }

  /** The block of the j-th child of a, read when the joints before it are. */
  lemma {:induction false} ChildReads(ff: FloatFormat, nodes: seq<Node>, a: nat, j: nat, s: State)
    requires Tree(nodes) && Readable(ff, nodes) && a < |nodes| && j < |nodes[a].children|
    requires Valid(s) && Reading(s) && s.nodes == Rebuilt(nodes, nodes[a].children[j]) && s.target == Some(a)
    ensures Reads(ff, s, JointWords(ff, nodes, nodes[a].children[j]), At(s, nodes, NextAt(nodes, a, j + 1), Some(a)))
    decreases |nodes| - a, |nodes[a].children| - j, 0
  {
    var c := nodes[a].children[j];
    ChildIsAfter(nodes, a, c);
    SiblingNext(nodes, a, j);
    JointReads(ff, nodes, c, s);
  }

  /** The blocks of the children of a from the j-th on, read when the joints
      before that child are, leave the whole subtree of a read. */
  lemma {:induction false} ChildrenReads(ff: FloatFormat, nodes: seq<Node>, a: nat, j: nat, s: State)
    requires Tree(nodes) && Readable(ff, nodes) && a < |nodes| && j <= |nodes[a].children|
    requires Valid(s) && Reading(s) && s.nodes == Rebuilt(nodes, NextAt(nodes, a, j)) && s.target == Some(a)
    ensures Reads(ff, s, ChildWords(ff, nodes, a, j), At(s, nodes, SubtreeEnd(nodes, a), Some(a)))
    decreases |nodes| - a, |nodes[a].children| - j, 2
  {
    if j == |nodes[a].children| {
      ReadsNothing(ff, s);
      assert At(s, nodes, SubtreeEnd(nodes, a), Some(a)) == s;
    } else {
      MoreChildrenReads(ff, nodes, a, j, s);
    }
  }

  /** The step of ChildrenReads: the j-th child's block, then the rest. */
  lemma {:induction false} MoreChildrenReads(ff: FloatFormat, nodes: seq<Node>, a: nat, j: nat, s: State)
    requires Tree(nodes) && Readable(ff, nodes) && a < |nodes| && j < |nodes[a].children|
    requires Valid(s) && Reading(s) && s.nodes == Rebuilt(nodes, nodes[a].children[j]) && s.target == Some(a)
    ensures Reads(ff, s, ChildWords(ff, nodes, a, j), At(s, nodes, SubtreeEnd(nodes, a), Some(a)))
    decreases |nodes| - a, |nodes[a].children| - j, 1
  {
    var s' := At(s, nodes, NextAt(nodes, a, j + 1), Some(a));
    var e := At(s, nodes, SubtreeEnd(nodes, a), Some(a));
    ChildReads(ff, nodes, a, j, s);
    ChildrenReads(ff, nodes, a, j + 1, s');
    assert At(s', nodes, SubtreeEnd(nodes, a), Some(a)) == e;
    ThenReads(ff, s, JointWords(ff, nodes, nodes[a].children[j]), s', ChildWords(ff, nodes, a, j + 1), e);
  }

  /** The JOINT line of c opens it below its parent. */
  lemma JointHead(ff: FloatFormat, nodes: seq<Node>, c: nat, s: State)
    requires ParentsBefore(nodes) && c < |nodes| && nodes[c].parent.Some?
    requires Valid(s) && Reading(s) && s.nodes == Rebuilt(nodes, c) && s.target == nodes[c].parent
    ensures Reads(ff, s, [["JOINT", nodes[c].name]], s.(nodes := Opened(nodes, c), target := Some(c)))
  {
    JointLine(ff, s, nodes[c].name);
    JointOpens(nodes, c, nodes[c].parent.value);
  }

  /** The block of joint c, read when the joints before it are and the target
      is its parent, leaves its whole subtree read and the target where it was. */
  lemma {:induction false} JointReads(ff: FloatFormat, nodes: seq<Node>, c: nat, s: State)
    requires Tree(nodes) && Readable(ff, nodes) && c < |nodes| && nodes[c].parent.Some?
    requires Valid(s) && Reading(s) && s.nodes == Rebuilt(nodes, c) && s.target == nodes[c].parent
    ensures Reads(ff, s, JointWords(ff, nodes, c), At(s, nodes, SubtreeEnd(nodes, c), s.target))
    decreases |nodes| - c, |nodes[c].children| + 3, 0
  {
    var s1 := s.(nodes := Opened(nodes, c), target := Some(c));
    var e := At(s, nodes, SubtreeEnd(nodes, c), s.target);
    JointHead(ff, nodes, c, s);
    BodyReads(ff, nodes, c, Zero, s1);
    assert At(s1, nodes, SubtreeEnd(nodes, c), nodes[c].parent) == e;
    ThenReads(ff, s, [["JOINT", nodes[c].name]], s1, BodyWords(ff, nodes, c, Zero), e);
  }

  /** The ROOT line opens joint 0 as the root. */
  lemma RootHead(ff: FloatFormat, nodes: seq<Node>, s: State)
    requires |nodes| > 0 && nodes[0].parent.None?
    requires Valid(s) && Reading(s) && s.nodes == [] && s.root.None? && s.target.None?
    ensures Reads(ff, s, [["ROOT", nodes[0].name]], s.(nodes := Opened(nodes, 0), target := Some(0), root := Some(0)))
  {
    RootLine(ff, s, nodes[0].name);
    RootOpens(nodes);
  }

  /** The root block of a single-rooted tree, read from the start of the
      hierarchy, leaves every joint read, joint 0 as root and no target. */
  lemma RootReads(ff: FloatFormat, nodes: seq<Node>, s: State)
    requires Tree(nodes) && Readable(ff, nodes) && |nodes| > 0
    requires nodes[0].parent.None? && forall i :: 0 < i < |nodes| ==> nodes[i].parent.Some?
    requires Valid(s) && Reading(s) && s.nodes == [] && s.root.None? && s.target.None?
    ensures Reads(ff, s, RootWords(ff, nodes, 0), At(s, nodes, |nodes|, None).(root := Some(0)))
  {
    var s1 := s.(nodes := Opened(nodes, 0), target := Some(0), root := Some(0));
    var e := At(s, nodes, |nodes|, None).(root := Some(0));
    RootHead(ff, nodes, s);
    BodyReads(ff, nodes, 0, nodes[0].offset, s1);
    SingleRootSpansAll(nodes);
    assert At(s1, nodes, SubtreeEnd(nodes, 0), None) == e;
    ThenReads(ff, s, [["ROOT", nodes[0].name]], s1, BodyWords(ff, nodes, 0, nodes[0].offset), e);
  }
}
