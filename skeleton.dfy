/** The data of a BVH skeleton: vectors, channels, joints and their motion
    tables (BVHParser.Vec3 and BVHParser.Node), and the shape of the joint tree
    that the parser builds. */
module Skeleton {
  import opened Options
  import opened Text

  // ---------------------------------------------------------------------------
  // Vec3, Channel, eElement
  // ---------------------------------------------------------------------------

  /** BVHParser.Node.eElement: one component of a vector. */
  datatype Element = X | Y | Z

  /** BVHParser.Vec3. A float is an opaque number: the parser stores and copies
      values but never computes with them. */
  datatype Vec3 = Vec3(x: real, y: real, z: real)
  {
    function Get(e: Element): real {
      match e
      case X => x
      case Y => y
      case Z => z
    }

    /** The vector with component e replaced by v. */
    function With(e: Element, v: real): (r: Vec3)
      ensures r.Get(e) == v
      ensures forall e' :: e' != e ==> r.Get(e') == Get(e')
    {
      match e
      case X => this.(x := v)
      case Y => this.(y := v)
      case Z => this.(z := v)
    }
  }

  /** `new Vec3()`: every component 0. */
  const Zero := Vec3(0.0, 0.0, 0.0)

  /** BVHParser.Node.Channel without its UNKNOWN member, which no node ever
      stores: it only marks a word that names no channel. */
  datatype Channel = Xposition | Yposition | Zposition | Xrotation | Yrotation | Zrotation
  {
    predicate IsPosition() {
      this == Xposition || this == Yposition || this == Zposition
    }

    /** The component of the position or rotation sample the channel fills. */
    function Axis(): Element {
      match this
      case Xposition => X
      case Yposition => Y
      case Zposition => Z
      case Xrotation => X
      case Yrotation => Y
      case Zrotation => Z
    }
  }

  /** Enum.ToString of a channel; also the word GetStringChannel writes for it. */
  function ChannelName(c: Channel): (name: string)
    ensures IsToken(name)
  {
    match c
    case Xposition => "Xposition"
    case Yposition => "Yposition"
    case Zposition => "Zposition"
    case Xrotation => "Xrotation"
    case Yrotation => "Yrotation"
    case Zrotation => "Zrotation"
  }

  /** The comparison chain of the CHANNELS case: the word must be one of the
      six names exactly; None is the UNKNOWN that makes ParseHierarchy fail. */
  function ChannelFromName(w: string): (r: Option<Channel>)
  {
    if w == ChannelName(Xposition) then Some(Xposition)
    else if w == ChannelName(Yposition) then Some(Yposition)
    else if w == ChannelName(Zposition) then Some(Zposition)
    else if w == ChannelName(Xrotation) then Some(Xrotation)
    else if w == ChannelName(Yrotation) then Some(Yrotation)
    else if w == ChannelName(Zrotation) then Some(Zrotation)
    else None
  }

  /** A word is accepted as channel c exactly when it is c's name. */
  lemma ChannelNames(w: string, c: Channel)
    ensures ChannelFromName(w) == Some(c) <==> w == ChannelName(c)
  {
  }

  // ---------------------------------------------------------------------------
  // Node
  // ---------------------------------------------------------------------------

  /** BVHParser.Node. Joints are referred to by their position in the parser's
      declaration-order list, so Parent and the child list Nodes hold indices. */
  datatype Node = Node(
    parent: Option<nat>,
    name: string,
    offset: Vec3,
    channels: seq<Channel>,
    children: seq<nat>,
    motionPos: map<int, Vec3>,
    motionRot: map<int, Vec3>)
  {
    /** GetMotionPos: the stored sample, or (0,0,0) for a frame never set. */
    function GetMotionPos(frame: int): Vec3 {
      if frame in motionPos then motionPos[frame] else Zero
    }

    function GetMotionRot(frame: int): Vec3 {
      if frame in motionRot then motionRot[frame] else Zero
    }

    /** SetMotionPos(frame, pos): the frame reads pos afterwards, every other
        frame reads as before, and nothing but the position table changes. */
    function SetMotionPos(frame: int, pos: Vec3): (r: Node)
      ensures r.GetMotionPos(frame) == pos
      ensures forall g :: g != frame ==> r.GetMotionPos(g) == GetMotionPos(g)
      ensures r == this.(motionPos := r.motionPos)
      ensures r.motionPos.Keys == motionPos.Keys + {frame}
    {
      var m := if frame in motionPos then motionPos else motionPos[frame := Zero];
      this.(motionPos := m[frame := pos])
    }

    /** SetMotionPos(frame, value, e): only component e of that frame changes;
        the other two keep their values, which are 0 for a frame never set. */
    function SetMotionPosElement(frame: int, value: real, e: Element): (r: Node)
      ensures r.GetMotionPos(frame) == GetMotionPos(frame).With(e, value)
      ensures forall g :: g != frame ==> r.GetMotionPos(g) == GetMotionPos(g)
      ensures r == this.(motionPos := r.motionPos)
      ensures r.motionPos.Keys == motionPos.Keys + {frame}
    {
      var m := if frame in motionPos then motionPos else motionPos[frame := Zero];
      this.(motionPos := m[frame := m[frame].With(e, value)])
    }

    /** SetMotionRot(frame, rot), as SetMotionPos for the rotation table. */
    function SetMotionRot(frame: int, rot: Vec3): (r: Node)
      ensures r.GetMotionRot(frame) == rot
      ensures forall g :: g != frame ==> r.GetMotionRot(g) == GetMotionRot(g)
      ensures r == this.(motionRot := r.motionRot)
      ensures r.motionRot.Keys == motionRot.Keys + {frame}
    {
      var m := if frame in motionRot then motionRot else motionRot[frame := Zero];
      this.(motionRot := m[frame := rot])
    }

    function SetMotionRotElement(frame: int, value: real, e: Element): (r: Node)
      ensures r.GetMotionRot(frame) == GetMotionRot(frame).With(e, value)
      ensures forall g :: g != frame ==> r.GetMotionRot(g) == GetMotionRot(g)
      ensures r == this.(motionRot := r.motionRot)
      ensures r.motionRot.Keys == motionRot.Keys + {frame}
    {
      var m := if frame in motionRot then motionRot else motionRot[frame := Zero];
      this.(motionRot := m[frame := m[frame].With(e, value)])
    }
  }

  /** `new Node()` with its Parent and Name set: no offset, channels, children
      or samples yet. */
  function NewNode(parent: Option<nat>, name: string): Node {
    Node(parent, name, Zero, [], [], map[], map[])
  }

  /** A table never written reads (0,0,0) at every frame. */
  lemma {:induction false} NewNodeReadsZero(parent: Option<nat>, name: string, frame: int)
    ensures NewNode(parent, name).GetMotionPos(frame) == Zero
    ensures NewNode(parent, name).GetMotionRot(frame) == Zero
  {
  }

  // ---------------------------------------------------------------------------
  // The joint tree
  // ---------------------------------------------------------------------------

  /** Every Parent link points to an earlier joint. */
  predicate ParentsBefore(nodes: seq<Node>) {
    forall i :: 0 <= i < |nodes| && nodes[i].parent.Some? ==> nodes[i].parent.value < i
  }

  /** The joints among the first k whose Parent is p, in declaration order. */
  function ChildrenOf(nodes: seq<Node>, p: nat, k: nat): seq<nat>
    requires k <= |nodes|
  {
    if k == 0 then []
    else ChildrenOf(nodes, p, k - 1) + (if nodes[k - 1].parent == Some(p) then [k - 1] else [])
  }

  /** ChildrenOf lists exactly the joints with Parent p, each once, in
      increasing order. */
  lemma ChildrenOfSpec(nodes: seq<Node>, p: nat, k: nat)
    requires k <= |nodes|
    ensures forall x :: x in ChildrenOf(nodes, p, k) ==> x < k && nodes[x].parent == Some(p)
    ensures forall x :: 0 <= x < k && nodes[x].parent == Some(p) ==> x in ChildrenOf(nodes, p, k)
    ensures forall i, j :: 0 <= i < j < |ChildrenOf(nodes, p, k)| ==>
      ChildrenOf(nodes, p, k)[i] < ChildrenOf(nodes, p, k)[j]
  {
    ChildrenOfMembers(nodes, p, k);
    ChildrenOfComplete(nodes, p, k);
    ChildrenOfSorted(nodes, p, k);
  }

  lemma {:induction false} ChildrenOfMembers(nodes: seq<Node>, p: nat, k: nat)
    requires k <= |nodes|
    ensures forall x :: x in ChildrenOf(nodes, p, k) ==> x < k && nodes[x].parent == Some(p)
  {
    if k > 0 {
      ChildrenOfMembers(nodes, p, k - 1);
    }
  }

  lemma {:induction false} ChildrenOfComplete(nodes: seq<Node>, p: nat, k: nat)
    requires k <= |nodes|
    ensures forall x :: 0 <= x < k && nodes[x].parent == Some(p) ==> x in ChildrenOf(nodes, p, k)
  {
    if k > 0 {
      ChildrenOfComplete(nodes, p, k - 1);
    }
  }

  lemma {:induction false} ChildrenOfSorted(nodes: seq<Node>, p: nat, k: nat)
    requires k <= |nodes|
    ensures forall i, j :: 0 <= i < j < |ChildrenOf(nodes, p, k)| ==>
      ChildrenOf(nodes, p, k)[i] < ChildrenOf(nodes, p, k)[j]
  {
    if k > 0 {
      ChildrenOfSorted(nodes, p, k - 1);
      var earlier := ChildrenOf(nodes, p, k - 1);
      assert forall i :: 0 <= i < |earlier| ==> earlier[i] < k - 1 by {
        ChildrenOfMembers(nodes, p, k - 1);
        assert forall i :: 0 <= i < |earlier| ==> earlier[i] in earlier;
      }
    }
  }

  /** Parent and child links agree: each joint's child list holds exactly the
      joints that name it as Parent, in declaration order. */
  predicate Linked(nodes: seq<Node>) {
    ParentsBefore(nodes) &&
    forall i {:trigger nodes[i].children} :: 0 <= i < |nodes| ==> nodes[i].children == ChildrenOf(nodes, i, |nodes|)
  }

  lemma ChildIsAfter(nodes: seq<Node>, a: nat, c: nat)
    requires Linked(nodes) && a < |nodes| && c in nodes[a].children
    ensures a < c < |nodes| && nodes[c].parent == Some(a)
  {
    assert nodes[a].children == ChildrenOf(nodes, a, |nodes|);
    ChildrenOfSpec(nodes, a, |nodes|);
  }

  lemma IsChild(nodes: seq<Node>, a: nat, c: nat)
    requires Linked(nodes) && a < |nodes| && c < |nodes| && nodes[c].parent == Some(a)
    ensures c in nodes[a].children
  {
    assert nodes[a].children == ChildrenOf(nodes, a, |nodes|);
    ChildrenOfSpec(nodes, a, |nodes|);
  }

  /** x lies in the subtree of a: x is a, or a is reached from x by Parent links. */
  predicate InSubtree(nodes: seq<Node>, a: nat, x: nat)
    decreases x
  {
    x == a ||
    (x < |nodes| && nodes[x].parent.Some? && nodes[x].parent.value < x &&
     InSubtree(nodes, a, nodes[x].parent.value))
  }

  lemma {:induction false} InSubtreeAbove(nodes: seq<Node>, a: nat, x: nat)
    requires InSubtree(nodes, a, x)
    ensures a <= x
    decreases x
  {
    if x != a {
      InSubtreeAbove(nodes, a, nodes[x].parent.value);
    }
  }

  lemma {:induction false} InSubtreeTrans(nodes: seq<Node>, a: nat, b: nat, x: nat)
    requires InSubtree(nodes, a, b) && InSubtree(nodes, b, x)
    ensures InSubtree(nodes, a, x)
    decreases x
  {
    if x != b && x != a {
      InSubtreeTrans(nodes, a, b, nodes[x].parent.value);
    }
  }

  /** The joints above x form a chain: of two of them, the lower one is in the
      subtree of the other. */
  lemma {:induction false} InSubtreeChain(nodes: seq<Node>, a: nat, b: nat, x: nat)
    requires InSubtree(nodes, a, x) && InSubtree(nodes, b, x) && a <= b
    ensures InSubtree(nodes, a, b)
    decreases x
  {
    if x != b {
      InSubtreeAbove(nodes, b, x);
      InSubtreeChain(nodes, a, b, nodes[x].parent.value);
    }
  }

  /** Joint i's parent is an ancestor of (or is) the joint declared just
      before it. */
  predicate AfterParent(nodes: seq<Node>, i: nat)
    requires 0 < i < |nodes|
  {
    nodes[i].parent.Some? ==> InSubtree(nodes, nodes[i].parent.value, i - 1)
  }

  /** The declaration order is a pre-order: a joint's Parent is the joint
      declared just before it or one of that joint's ancestors. This is what the
      parser's target cursor guarantees, since JOINT attaches to the target
      and `}` only moves the target up. */
  predicate PreOrder(nodes: seq<Node>) {
    forall i :: 0 < i < |nodes| ==> AfterParent(nodes, i)
  }

  /** In a pre-order, a subtree has no gaps. */
  lemma {:induction false} SubtreeInterval(nodes: seq<Node>, a: nat, j: nat, k: nat)
    requires PreOrder(nodes)
    requires InSubtree(nodes, a, k) && a <= j <= k
    ensures InSubtree(nodes, a, j)
    decreases k - j
  {
    if j < k {
      var q := nodes[k].parent.value;
      assert AfterParent(nodes, k);
      InSubtreeTrans(nodes, a, q, k - 1);
      SubtreeInterval(nodes, a, j, k - 1);
    }
  }

  /** The first index from j on that is not in the subtree of a. */
  function Scan(nodes: seq<Node>, a: nat, j: nat): (e: nat)
    requires a < j <= |nodes|
    ensures j <= e <= |nodes|
    ensures e < |nodes| ==> !InSubtree(nodes, a, e)
    ensures forall k :: j <= k < e ==> InSubtree(nodes, a, k)
    decreases |nodes| - j
  {
    if j == |nodes| || !InSubtree(nodes, a, j) then j else Scan(nodes, a, j + 1)
  }

  /** One past the last joint of the subtree of a, in declaration order. */
  function SubtreeEnd(nodes: seq<Node>, a: nat): (e: nat)
    requires a < |nodes|
    ensures a < e <= |nodes|
  {
    Scan(nodes, a, a + 1)
  }

  /** In a pre-order the subtree of a is exactly the joints a .. SubtreeEnd(a)-1. */
  lemma SubtreeSpan(nodes: seq<Node>, a: nat, x: nat)
    requires PreOrder(nodes) && a < |nodes| && x < |nodes|
    ensures InSubtree(nodes, a, x) <==> a <= x < SubtreeEnd(nodes, a)
  {
    var e := SubtreeEnd(nodes, a);
    if InSubtree(nodes, a, x) {
      InSubtreeAbove(nodes, a, x);
      if e <= x {
        SubtreeInterval(nodes, a, e, x);
      }
    }
  }

  /** The joint that ends a child's subtree inside its parent's subtree is
      another child of that parent. */
  lemma {:induction false} NextSibling(nodes: seq<Node>, a: nat, c: nat, e: nat)
    requires ParentsBefore(nodes) && PreOrder(nodes)
    requires c < |nodes| && nodes[c].parent == Some(a) && e == SubtreeEnd(nodes, c)
    requires e < |nodes| && InSubtree(nodes, a, e)
    ensures nodes[e].parent == Some(a)
  {
    var q := nodes[e].parent.value;
    assert q < e && InSubtree(nodes, a, q);
    assert AfterParent(nodes, e);
    assert InSubtree(nodes, c, e - 1);
    if c <= q {
      InSubtreeChain(nodes, c, q, e - 1);
      assert InSubtree(nodes, c, e);
    } else {
      InSubtreeChain(nodes, q, c, e - 1);
      assert InSubtree(nodes, q, a);
      InSubtreeAbove(nodes, a, q);
      InSubtreeAbove(nodes, q, a);
    }
  }

  /** The child list of a partitions the rest of a's subtree: the first child
      comes right after a, each next child right after the subtree of the one
      before, and the last child's subtree ends where a's does. A leaf's
      subtree is a alone. */
  lemma ChildrenChain(nodes: seq<Node>, a: nat)
    requires Linked(nodes) && PreOrder(nodes) && a < |nodes|
    ensures var cs := nodes[a].children;
      cs == [] ==> SubtreeEnd(nodes, a) == a + 1
    ensures var cs := nodes[a].children;
      cs != [] ==> cs[0] == a + 1
    ensures var cs := nodes[a].children;
      cs != [] ==> cs[|cs| - 1] < |nodes| && SubtreeEnd(nodes, cs[|cs| - 1]) == SubtreeEnd(nodes, a)
    ensures var cs := nodes[a].children;
      forall j :: 0 <= j < |cs| - 1 ==> cs[j] < |nodes| && cs[j + 1] == SubtreeEnd(nodes, cs[j])
  {
    var cs := nodes[a].children;
    if cs == [] {
      LeafEnd(nodes, a);
    } else {
      FirstChild(nodes, a);
      LastChildEnd(nodes, a);
      forall j | 0 <= j < |cs| - 1
        ensures cs[j] < |nodes| && cs[j + 1] == SubtreeEnd(nodes, cs[j])
      {
        ChildAfterChild(nodes, a, j);
      }
    }
  }

  lemma {:induction false} LeafEnd(nodes: seq<Node>, a: nat)
    requires Linked(nodes) && PreOrder(nodes) && a < |nodes| && nodes[a].children == []
    ensures SubtreeEnd(nodes, a) == a + 1
  {
    if a + 1 < SubtreeEnd(nodes, a) {
      ParentOfNext(nodes, a);
      IsChild(nodes, a, a + 1);
    }
  }

  lemma {:induction false} FirstChild(nodes: seq<Node>, a: nat)
    requires Linked(nodes) && PreOrder(nodes) && a < |nodes| && nodes[a].children != []
    ensures nodes[a].children[0] == a + 1
  {
    var cs := nodes[a].children;
    assert a < cs[0] < |nodes| && InSubtree(nodes, a, cs[0]) by {
      ChildIsAfter(nodes, a, cs[0]);
    }
    assert a + 1 < SubtreeEnd(nodes, a) by {
      SubtreeInterval(nodes, a, a + 1, cs[0]);
      SubtreeSpan(nodes, a, a + 1);
    }
    assert a + 1 in cs by {
      ParentOfNext(nodes, a);
      IsChild(nodes, a, a + 1);
    }
    assert cs[0] <= a + 1 by {
      ChildrenSorted(nodes, a);
      SortedMin(cs, a + 1);
    }
  }

  /** The joint right after a, if it is in a's subtree, is a child of a. */
  lemma {:induction false} ParentOfNext(nodes: seq<Node>, a: nat)
    requires ParentsBefore(nodes) && a < |nodes| && a + 1 < SubtreeEnd(nodes, a)
    ensures nodes[a + 1].parent == Some(a)
  {
    assert InSubtree(nodes, a, a + 1);
    var q := nodes[a + 1].parent.value;
    InSubtreeAbove(nodes, a, q);
  }

  lemma {:induction false} LastChildEnd(nodes: seq<Node>, a: nat)
    requires Linked(nodes) && PreOrder(nodes) && a < |nodes| && nodes[a].children != []
    ensures var cs := nodes[a].children;
      cs[|cs| - 1] < |nodes| && SubtreeEnd(nodes, cs[|cs| - 1]) == SubtreeEnd(nodes, a)
  {
    LastChildReaches(nodes, a);
    LastChildStops(nodes, a);
  }

  lemma LastChildReaches(nodes: seq<Node>, a: nat)
    requires Linked(nodes) && PreOrder(nodes) && a < |nodes| && nodes[a].children != []
    ensures var cs := nodes[a].children;
      cs[|cs| - 1] < |nodes| && SubtreeEnd(nodes, cs[|cs| - 1]) >= SubtreeEnd(nodes, a)
  {
    var cs := nodes[a].children;
    var last := cs[|cs| - 1];
    assert last < |nodes| by { ChildIsAfter(nodes, a, last); }
    var f := SubtreeEnd(nodes, last);
    assert f !in cs by {
      ChildrenSorted(nodes, a);
      SortedMax(cs, f);
    }
    assert f >= SubtreeEnd(nodes, a) by {
      ChildAfterEnd(nodes, a, last);
    }
  }

  /** Where a child's subtree ends inside its parent's, the next child starts. */
  lemma ChildAfterEnd(nodes: seq<Node>, a: nat, c: nat)
    requires Linked(nodes) && PreOrder(nodes) && a < |nodes| && c in nodes[a].children
    ensures c < |nodes| && SubtreeEnd(nodes, c) < SubtreeEnd(nodes, a) ==>
      SubtreeEnd(nodes, c) in nodes[a].children
  {
    ChildIsAfter(nodes, a, c);
    var f := SubtreeEnd(nodes, c);
    if f < SubtreeEnd(nodes, a) {
      assert InSubtree(nodes, a, f) by {
        assert InSubtree(nodes, a, c);
        SubtreeSpan(nodes, a, c);
        SubtreeSpan(nodes, a, f);
      }
      NextSibling(nodes, a, c, f);
      IsChild(nodes, a, f);
    }
  }

  lemma {:induction false} LastChildStops(nodes: seq<Node>, a: nat)
    requires Linked(nodes) && PreOrder(nodes) && a < |nodes| && nodes[a].children != []
    ensures var cs := nodes[a].children;
      cs[|cs| - 1] < |nodes| && SubtreeEnd(nodes, cs[|cs| - 1]) <= SubtreeEnd(nodes, a)
  {
    var cs := nodes[a].children;
    var last := cs[|cs| - 1];
    assert last < |nodes| && InSubtree(nodes, a, last) by {
      ChildIsAfter(nodes, a, last);
      assert InSubtree(nodes, a, a);
    }
    EndWithin(nodes, a, last);
  }

  /** A subtree inside another ends no later than it. */
  lemma EndWithin(nodes: seq<Node>, a: nat, c: nat)
    requires PreOrder(nodes) && a < |nodes| && c < |nodes| && InSubtree(nodes, a, c)
    ensures SubtreeEnd(nodes, c) <= SubtreeEnd(nodes, a)
  {
    var e := SubtreeEnd(nodes, a);
    SubtreeSpan(nodes, a, c);
    if e < SubtreeEnd(nodes, c) {
      SubtreeSpan(nodes, c, e);
      InSubtreeTrans(nodes, a, c, e);
    }
  }

  lemma ChildrenSorted(nodes: seq<Node>, a: nat)
    requires Linked(nodes) && a < |nodes|
    ensures forall i, j :: 0 <= i < j < |nodes[a].children| ==> nodes[a].children[i] < nodes[a].children[j]
  {
    assert nodes[a].children == ChildrenOf(nodes, a, |nodes|);
    ChildrenOfSpec(nodes, a, |nodes|);
  }

  /** In a strictly increasing list no member is below the first. */
  lemma SortedMin(cs: seq<nat>, x: nat)
    requires forall i, j :: 0 <= i < j < |cs| ==> cs[i] < cs[j]
    requires x in cs
    ensures cs[0] <= x
  {
  }

  /** In a strictly increasing list no member exceeds the last. */
  lemma SortedMax(cs: seq<nat>, x: nat)
    requires forall i, j :: 0 <= i < j < |cs| ==> cs[i] < cs[j]
    ensures x in cs ==> x <= cs[|cs| - 1]
  {
  }

  /** In a strictly increasing list the member after cs[j] is the least one
      above cs[j]. */
  lemma SortedNext(cs: seq<nat>, j: nat, x: nat)
    requires forall i, j :: 0 <= i < j < |cs| ==> cs[i] < cs[j]
    requires j + 1 < |cs| && x in cs && cs[j] < x
    ensures cs[j + 1] <= x
  {
  }

  lemma {:induction false} ChildAfterChild(nodes: seq<Node>, a: nat, j: nat)
    requires Linked(nodes) && PreOrder(nodes) && a < |nodes|
    requires j + 1 < |nodes[a].children|
    ensures nodes[a].children[j] < |nodes|
    ensures nodes[a].children[j + 1] == SubtreeEnd(nodes, nodes[a].children[j])
  {
    var cs := nodes[a].children;
    var c, d := cs[j], cs[j + 1];
    ChildrenSorted(nodes, a);
    ChildIsAfter(nodes, a, c);
    ChildIsAfter(nodes, a, d);
    var f := SubtreeEnd(nodes, c);
    NoChildInside(nodes, a, c, d);
    assert f <= d;
    assert InSubtree(nodes, a, d);
    InSubtreeAbove(nodes, a, c);
    SubtreeInterval(nodes, a, f, d);
    NextSibling(nodes, a, c, f);
    IsChild(nodes, a, f);
    SortedNext(cs, j, f);
  }

  /** A joint inside the subtree of a child c, other than c, is not a child
      of c's parent. */
  lemma {:induction false} NoChildInside(nodes: seq<Node>, a: nat, c: nat, d: nat)
    requires ParentsBefore(nodes) && PreOrder(nodes)
    requires c < d < |nodes| && nodes[c].parent == Some(a) && nodes[d].parent == Some(a)
    ensures SubtreeEnd(nodes, c) <= d
  {
    if d < SubtreeEnd(nodes, c) {
      SubtreeSpan(nodes, c, d);
      InSubtreeAbove(nodes, c, a);
    }
  }

  /** With a single parentless joint at the front, every joint is in its
      subtree, so its pre-order walk covers the whole list. */
  lemma {:induction false} SingleRootSpansAll(nodes: seq<Node>)
    requires PreOrder(nodes) && ParentsBefore(nodes) && |nodes| > 0
    requires forall i :: 0 < i < |nodes| ==> nodes[i].parent.Some?
    ensures SubtreeEnd(nodes, 0) == |nodes|
  {
    var e := SubtreeEnd(nodes, 0);
    if e < |nodes| {
      UnderFirst(nodes, e);
    }
  }

  lemma {:induction false} UnderFirst(nodes: seq<Node>, x: nat)
    requires ParentsBefore(nodes) && x < |nodes|
    requires forall i :: 0 < i < |nodes| ==> nodes[i].parent.Some?
    ensures InSubtree(nodes, 0, x)
    decreases x
  {
    if x != 0 {
      UnderFirst(nodes, nodes[x].parent.value);
    }
  }
}
