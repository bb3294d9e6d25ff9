/** The forward-kinematics slice of the viewer form (Form1.cs): the mirror of
    the parser's joints that setBVH builds, the rotation a joint has at a
    frame, the product drawBVH composes from a joint up to the root, and the
    playback state that update, the play button and the track bar change.
    Matrices are kept symbolic, as the sequence of factors multiplied left
    to right; the identity is the empty sequence. */
module ViewerForm {
  import opened Options
  import opened Text
  import opened Skeleton
  import opened LoadSpec
  import opened LoadFacts
  import opened Parser
  import opened LoadProps

  // ---------------------------------------------------------------------------
  // GetRotMatrixFromBVHNode
  // ---------------------------------------------------------------------------

  /** One factor of a transform: Matrix4.CreateRotationX/Y/Z by an angle in
      degrees (deg2rad is left to the float layer), or CreateTranslation. */
  datatype Factor = Rotate(axis: Element, angle: real) | Translate(offset: Vec3)

  /** What the channel switch multiplies on for channel c: a rotation channel
      rotates about its own axis by that component of the frame's euler
      angles; a position channel adds nothing. */
  function ChannelFactor(c: Channel, euler: Vec3): seq<Factor> {
    if c.IsPosition() then [] else [Rotate(c.Axis(), euler.Get(c.Axis()))]
  }

  /** The product GetRotMatrixFromBVHNode builds over channels cs: the factor
      of the last channel first, the factor of the first channel last. */
  function RotFactors(cs: seq<Channel>, euler: Vec3): seq<Factor> {
    if cs == [] then [] else RotFactors(cs[1..], euler) + ChannelFactor(cs[0], euler)
  }

  /** The rotation channels among cs. */
  function RotationCount(cs: seq<Channel>): nat {
    if cs == [] then 0 else (if cs[0].IsPosition() then 0 else 1) + RotationCount(cs[1..])
  }

  /** The channels of a joint read back to front: the factors of a list of
      channels put after more channels come first. */
  lemma {:induction false} RotFactorsAppend(a: seq<Channel>, b: seq<Channel>, euler: Vec3)
    ensures RotFactors(a + b, euler) == RotFactors(b, euler) + RotFactors(a, euler)
  {
    if a == [] {
      assert a + b == b;
    } else {
      assert (a + b)[1..] == a[1..] + b;
      RotFactorsAppend(a[1..], b, euler);
    }
  }

  /** One rotation per rotation channel and nothing else; each rotates about
      its channel's axis by the euler component of that axis, so a joint
      without rotation channels gets the identity. */
  lemma {:induction false} RotFactorsRotate(cs: seq<Channel>, euler: Vec3)
    ensures |RotFactors(cs, euler)| == RotationCount(cs)
    ensures forall k :: 0 <= k < |RotFactors(cs, euler)| ==>
      RotFactors(cs, euler)[k].Rotate? &&
      RotFactors(cs, euler)[k].angle == euler.Get(RotFactors(cs, euler)[k].axis)
  {
    if cs != [] {
      RotFactorsRotate(cs[1..], euler);
    }
  }

  /** The usual BVH order Zrotation Xrotation Yrotation gives the Y factor
      first and the Z factor last. */
  lemma ZXYOrder(euler: Vec3)
    ensures RotFactors([Zrotation, Xrotation, Yrotation], euler)
         == [Rotate(Y, euler.y), Rotate(X, euler.x), Rotate(Z, euler.z)]
  {
    RotFactorsAppend([Zrotation], [Xrotation, Yrotation], euler);
    RotFactorsAppend([Xrotation], [Yrotation], euler);
  }

  /** GetRotMatrixFromBVHNode(node, frame): the euler angles of the frame,
      then a loop over the channels from the last down to the first. */
  method GetRotMatrixFromBVHNode(node: Node, frame: int) returns (matrix: seq<Factor>)
    ensures matrix == RotFactors(node.channels, node.GetMotionRot(frame))
  {
    matrix := [];
    var euler := node.GetMotionRot(frame);
    var cs := node.channels;
    var i := |cs|;
    while i > 0
      invariant 0 <= i <= |cs|
      invariant matrix == RotFactors(cs[i..], euler)
    {
      i := i - 1;
      assert cs[i..][1..] == cs[i + 1..];
      match cs[i] {
        case Xrotation => matrix := matrix + [Rotate(X, euler.x)];
        case Yrotation => matrix := matrix + [Rotate(Y, euler.y)];
        case Zrotation => matrix := matrix + [Rotate(Z, euler.z)];
        case _ =>
      }
    }
  }

  // ---------------------------------------------------------------------------
  // setBVH
  // ---------------------------------------------------------------------------

  /** Form1.Node: the name of a joint, the name of its parent ("" for the
      root), the index of the entry found for that name in the viewer's list,
      and the rest offset scaled for display (globalPos is left out). */
  datatype ViewNode = ViewNode(name: string, parentName: string, parent: Option<nat>, localPos: Vec3)

  /** SCALE, the factor from BVH units to display units. */
  const Scale: real := 0.1

  function Scaled(v: Vec3): Vec3 {
    Vec3(v.x * Scale, v.y * Scale, v.z * Scale)
  }

  /** The entry the first loop of setBVH makes for joint i. */
  function Entry(nodes: seq<Node>, i: nat): ViewNode
    requires ParentsBefore(nodes) && i < |nodes|
  {
    var n := nodes[i];
    ViewNode(n.name, if n.parent.Some? then nodes[n.parent.value].name else "", None, Scaled(n.offset))
  }

  /** The entries of the first loop, one per joint in list order. */
  function Entries(nodes: seq<Node>): (r: seq<ViewNode>)
    requires ParentsBefore(nodes)
    ensures |r| == |nodes|
  {
    seq(|nodes|, i requires 0 <= i < |nodes| => Entry(nodes, i))
  }

  /** The inner loop of setBVH: the first entry from k on named name. */
  function FirstNamed(list: seq<ViewNode>, name: string, k: nat): Option<nat>
    requires k <= |list|
    decreases |list| - k
  {
    if k == |list| then None
    else if list[k].name == name then Some(k)
    else FirstNamed(list, name, k + 1)
  }

  /** FirstNamed finds the first entry with the name, and finds none only
      when there is none. */
  lemma {:induction false} FirstNamedSpec(list: seq<ViewNode>, name: string, k: nat)
    requires k <= |list|
    ensures match FirstNamed(list, name, k)
      case Some(j) => k <= j < |list| && list[j].name == name &&
                      forall m :: k <= m < j ==> list[m].name != name
      case None => forall m :: k <= m < |list| ==> list[m].name != name
    decreases |list| - k
  {
    if k < |list| && list[k].name != name {
      FirstNamedSpec(list, name, k + 1);
    }
  }

  /** Entry i after the second loop of setBVH: its parent is the first entry
      named by its parentName, and is left as it was when there is none. */
  function Relinked(list: seq<ViewNode>, i: nat): ViewNode
    requires i < |list|
  {
    match FirstNamed(list, list[i].parentName, 0)
    case None => list[i]
    case Some(j) => list[i].(parent := Some(j))
  }

  /** The list after the second loop of setBVH. */
  function LinkAll(list: seq<ViewNode>): (r: seq<ViewNode>)
    ensures |r| == |list|
  {
    seq(|list|, i requires 0 <= i < |list| => Relinked(list, i))
  }

  /** Every parent link points to an earlier entry. */
  predicate ParentsEarlier(list: seq<ViewNode>) {
    forall i :: 0 <= i < |list| && list[i].parent.Some? ==> list[i].parent.value < i
  }

  /** After a load that succeeded (a linked joint list whose names are
      single words and pairwise different), the list setBVH builds from an
      empty one mirrors the joints: same names, the scaled offsets, and the
      parent found by name is the joint's own parent. */
  lemma MirrorParents(nodes: seq<Node>)
    requires ParentsBefore(nodes) && NamesAreTokens(nodes) && DistinctNames(nodes, |nodes|)
    ensures var list := LinkAll(Entries(nodes));
      |list| == |nodes| && ParentsEarlier(list) &&
      forall i :: 0 <= i < |nodes| ==>
        list[i].name == nodes[i].name && list[i].localPos == Scaled(nodes[i].offset) &&
        list[i].parent == nodes[i].parent
  {
    var entries := Entries(nodes);
    forall i | 0 <= i < |nodes|
      ensures LinkAll(entries)[i].parent == nodes[i].parent
    {
      var e := entries[i];
      assert e == Entry(nodes, i);
      FirstNamedSpec(entries, e.parentName, 0);
      if nodes[i].parent.Some? {
        var p := nodes[i].parent.value;
        assert entries[p].name == nodes[p].name == e.parentName;
        match FirstNamed(entries, e.parentName, 0)
        case None =>
        case Some(j) =>
          assert entries[j].name == nodes[j].name;
          assert !(j < p) && !(p < j);
      } else {
        match FirstNamed(entries, e.parentName, 0)
        case None =>
        case Some(j) =>
          assert entries[j].name == nodes[j].name;
          assert IsToken(nodes[j].name);
      }
    }
  }

  // ---------------------------------------------------------------------------
  // The ancestor walk of drawBVH
  // ---------------------------------------------------------------------------

  /** The factors one pass of the walk multiplies on for entry v: the
      rotation of the joint the parser finds under v's name, then the
      translation by v's localPos; None is the null joint of a name the
      parser does not know. Position samples play no part. */
  function Local(s: State, v: ViewNode, frame: int): Option<seq<Factor>>
    requires Valid(s)
  {
    if v.name in s.dic then
      var n := s.nodes[s.dic[v.name]];
      Some(RotFactors(n.channels, n.GetMotionRot(frame)) + [Translate(v.localPos)])
    else None
  }

  /** The product of the walk from entry i: its factors, then those of its
      parent and so on up to the entry without a parent. */
  function Global(s: State, list: seq<ViewNode>, i: nat, frame: int): Option<seq<Factor>>
    requires Valid(s) && ParentsEarlier(list) && i < |list|
    decreases i
  {
    match Local(s, list[i], frame)
    case None => None
    case Some(l) =>
      if list[i].parent.None? then Some(l)
      else
        match Global(s, list, list[i].parent.value, frame)
        case None => None
        case Some(g) => Some(l + g)
  }

  /** The entries the walk from i visits: i, its parent, and so on. */
  function Ancestors(list: seq<ViewNode>, i: nat): (r: seq<nat>)
    requires ParentsEarlier(list) && i < |list|
    ensures |r| > 0
    decreases i
  {
    if list[i].parent.None? then [i] else [i] + Ancestors(list, list[i].parent.value)
  }

  /** The walk starts at i, each step goes to the parent of the entry before,
      the indices strictly decrease (so no entry is visited twice), and it
      stops at an entry without a parent. */
  lemma {:induction false} AncestorsWalk(list: seq<ViewNode>, i: nat)
    requires ParentsEarlier(list) && i < |list|
    ensures var a := Ancestors(list, i);
      (forall k :: 0 <= k < |a| ==> a[k] < |list|) &&
      a[0] == i && list[a[|a| - 1]].parent.None? &&
      (forall k :: 0 <= k < |a| - 1 ==> list[a[k]].parent == Some(a[k + 1])) &&
      (forall k, m :: 0 <= k < m < |a| ==> a[m] < a[k])
    decreases i
  {
    if list[i].parent.Some? {
      var p := list[i].parent.value;
      AncestorsWalk(list, p);
      var a := Ancestors(list, i);
      assert a == [i] + Ancestors(list, p);
      forall k, m | 0 <= k < m < |a|
        ensures a[m] < a[k]
      {
        if k == 0 {
          assert a[m] == Ancestors(list, p)[m - 1] <= p;
        }
      }
    }
  }

  /** The factors of the entries on a path, each entry's after the one before. */
  function Along(s: State, list: seq<ViewNode>, path: seq<nat>, frame: int): Option<seq<Factor>>
    requires Valid(s) && forall k :: 0 <= k < |path| ==> path[k] < |list|
  {
    if path == [] then Some([])
    else
      match Local(s, list[path[0]], frame)
      case None => None
      case Some(l) =>
        match Along(s, list, path[1..], frame)
        case None => None
        case Some(g) => Some(l + g)
  }

  /** The product of the walk is Rot(n) T(n) Rot(parent) T(parent) ... Rot(root)
      T(root) over the ancestors of n, in that order. */
  lemma {:induction false} GlobalAlongAncestors(s: State, list: seq<ViewNode>, i: nat, frame: int)
    requires Valid(s) && ParentsEarlier(list) && i < |list|
    ensures AncestorsInRange(list, i)
    ensures Global(s, list, i, frame) == Along(s, list, Ancestors(list, i), frame)
    decreases i
  {
    AncestorsWalk(list, i);
    var a := Ancestors(list, i);
    if list[i].parent.Some? {
      var p := list[i].parent.value;
      GlobalAlongAncestors(s, list, p, frame);
      assert a[1..] == Ancestors(list, p);
    } else {
      assert a[1..] == [];
      if Local(s, list[i], frame).Some? {
        var l := Local(s, list[i], frame).value;
        assert l + [] == l;
      }
    }
  }

  predicate AncestorsInRange(list: seq<ViewNode>, i: nat)
    requires ParentsEarlier(list) && i < |list|
  {
    forall k :: 0 <= k < |Ancestors(list, i)| ==> Ancestors(list, i)[k] < |list|
  }

  // ---------------------------------------------------------------------------
  // Playback
  // ---------------------------------------------------------------------------

  /** The fields of a parser as its constructor leaves them. */
  const NewParser: State := State(Mode.Unknown, None, None, [], map[], false, false, 0, 0, 0.0, false)

  /** The view list mirrors the parser's joints: one entry per joint with the
      joint's name and parent, its links pointing to earlier entries, and the
      parser's index finding entry i under its name. */
  predicate Mirrors(list: seq<ViewNode>, t: State) {
    |list| == |t.nodes| && ParentsEarlier(list) &&
    forall i :: 0 <= i < |list| ==>
      list[i].name == t.nodes[i].name && list[i].parent == t.nodes[i].parent &&
      list[i].localPos == Scaled(t.nodes[i].offset) &&
      list[i].name in t.dic && t.dic[list[i].name] == i
  }

  /** Forward kinematics over the parser's own tree: the rotation of joint i
      at the frame and the translation by its scaled offset, then the same for
      its parent, up to the root. */
  function JointGlobal(nodes: seq<Node>, i: nat, frame: int): seq<Factor>
    requires ParentsBefore(nodes) && i < |nodes|
    decreases i
  {
    var n := nodes[i];
    var l := RotFactors(n.channels, n.GetMotionRot(frame)) + [Translate(Scaled(n.offset))];
    if n.parent.None? then l else l + JointGlobal(nodes, n.parent.value, frame)
  }

  /** On a list that mirrors the joints, the walk of drawBVH never meets an
      unknown name and its product is the forward kinematics of the tree the
      parser built. */
  lemma {:induction false} MirroredGlobal(t: State, list: seq<ViewNode>, i: nat, frame: int)
    requires Valid(t) && Mirrors(list, t) && i < |list|
    ensures Global(t, list, i, frame) == Some(JointGlobal(t.nodes, i, frame))
    decreases i
  {
    if list[i].parent.Some? {
      MirroredGlobal(t, list, list[i].parent.value, frame);
    }
  }

  /** What loadBVH leaves in the view list: after a load that succeeded, the
      list mirrors the joints and the parser's index finds entry i under its
      name. */
  lemma LoadedMirror(ff: FloatFormat, lines: seq<string>)
    ensures var (t, st) := LoadSpec.Load(ff, NewParser, lines);
      st == Done ==> Mirrors(LinkAll(Entries(t.nodes)), t)
  {
    var (t, st) := LoadSpec.Load(ff, NewParser, lines);
    if st == Done {
      LoadKeepsBuilt(ff, NewParser, lines);
      LoadDoneIndex(ff, NewParser, lines);
      MirrorParents(t.nodes);
    }
  }

  /** Form1.Mode. */
  datatype ViewMode = Unknown | Bvh | Obj

  /** The frame update leaves: in BVH mode, while a parser is there and
      playing, one more (with the int's wrap-around), back to 0 on reaching
      FrameNum; in OBJ mode 0. */
  function NextFrame(mode: ViewMode, loaded: bool, playing: bool, frame: Int32, frameNum: Int32): Int32 {
    match mode
    case Bvh =>
      if loaded && playing then
        var f := Inc32(frame);
        if f >= frameNum then 0 else f
      else frame
    case Obj => 0
    case Unknown => frame
  }

  /** While playing a loaded BVH with frame in [0, FrameNum), update moves to
      the next frame modulo FrameNum, so the frame stays in range. */
  lemma NextFrameCycles(frame: Int32, frameNum: Int32)
    requires 0 <= frame < frameNum
    ensures NextFrame(Bvh, true, true, frame, frameNum) == (frame + 1) % frameNum
    ensures 0 <= NextFrame(Bvh, true, true, frame, frameNum) < frameNum
  {
    if frame + 1 < frameNum {
      ModUnique(frame + 1, 0, frameNum, frame + 1);
    } else {
      ModUnique(frame + 1, 1, frameNum, 0);
    }
  }

  /** Playing from frame 0, update passes through every frame in turn: after
      k updates the frame is k modulo FrameNum. */
  lemma {:induction false} PlayFrom0(frameNum: Int32, k: nat)
    requires 0 < frameNum
    ensures Play(frameNum, k) == k % frameNum
  {
    if k > 0 {
      PlayFrom0(frameNum, k - 1);
      NextFrameCycles(Play(frameNum, k - 1), frameNum);
      ModStep(k - 1, frameNum);
    }
  }

  /** The frame after k updates while playing from frame 0. */
  function Play(frameNum: Int32, k: nat): (r: Int32)
    requires 0 < frameNum
    ensures 0 <= r < frameNum
  {
    if k == 0 then 0
    else
      var f := Play(frameNum, k - 1);
      NextFrameCycles(f, frameNum);
      NextFrame(Bvh, true, true, f, frameNum)
  }

  lemma ModStep(k: nat, n: int)
    requires 0 < n
    ensures (k % n + 1) % n == (k + 1) % n
  {
    var q, r := k / n, k % n;
    if r + 1 < n {
      ModUnique(k + 1, q, n, r + 1);
      ModUnique(r + 1, 0, n, r + 1);
    } else {
      ModUnique(k + 1, q + 1, n, 0);
      ModUnique(r + 1, 1, n, 0);
    }
  }

  lemma ModUnique(x: int, q: int, n: int, r: int)
    requires 0 < n && 0 <= r < n && x == q * n + r
    ensures x % n == r
  {
    var d := x / n - q;
    assert d * n == r - x % n;
  }

  // ---------------------------------------------------------------------------
  // The form
  // ---------------------------------------------------------------------------

  /** The fields of the viewer form the slice reads and writes. */
  class BVHViewer {
    var mode: ViewMode
    var frame: Int32
    var isPlay: bool
    var bvh: BVHParser?
    var nodeList: seq<ViewNode>

    /** The form as constructed: no parser, an empty list, frame 0, paused. */
    constructor()
      ensures mode == ViewMode.Unknown && frame == 0 && !isPlay && bvh == null && nodeList == []
    {
      mode := ViewMode.Unknown;
      frame := 0;
      isPlay := false;
      bvh := null;
      nodeList := [];
    }

    /** loadBVH: BVH mode, paused, the list cleared, a new parser that loads
        the file's lines, setBVH, frame 0. Nothing catches an exception of
        the load: it leaves loadBVH before setBVH and `_frame = 0`, so the
        frame is the old one. A load that fails without throwing leaves the
        new parser disabled and so the list empty; one that succeeds leaves a
        list that mirrors the joints. */
    method LoadBVH(ff: FloatFormat, lines: seq<string>)
      modifies this
      ensures mode == Bvh && !isPlay
      ensures bvh != null && fresh(bvh) && bvh.Inv()
      ensures var (t, st) := LoadSpec.Load(ff, NewParser, lines);
        && bvh.Snapshot() == t
        && (st == Threw ==> frame == old(frame))
        && (st != Threw ==> frame == 0)
        && (st != Done ==> nodeList == [])
        && (st == Done ==> Mirrors(nodeList, t))
    {
      mode := Bvh;
      isPlay := false;
      nodeList := [];
      var p := new BVHParser();
      var st := p.Load(ff, lines);
      bvh := p;
      AfterLoad(ff, lines, st);
    }

    /** The rest of loadBVH once the load has returned: setBVH, then frame 0.
        An exception thrown by the load skips all of it, since nothing
        catches it. */
    method AfterLoad(ff: FloatFormat, lines: seq<string>, st: Status)
      requires bvh != null && bvh.Inv() && nodeList == []
      requires (bvh.Snapshot(), st) == LoadSpec.Load(ff, NewParser, lines)
      modifies this
      ensures bvh == old(bvh) && mode == old(mode) && isPlay == old(isPlay)
      ensures st == Threw ==> frame == old(frame)
      ensures st != Threw ==> frame == 0
      ensures st != Done ==> nodeList == []
      ensures st == Done ==> Mirrors(nodeList, bvh.Snapshot())
    {
      if st == Threw {
        return;
      }
      assert bvh.isEnable <==> st == Done by {
        LoadEnable(ff, NewParser, lines);
      }
      SetBVH();
      frame := 0;
      if st == Done {
        assert nodeList == LinkAll(Entries(bvh.nodeOrder)) by {
          assert [] + Entries(bvh.nodeOrder) == Entries(bvh.nodeOrder);
        }
        LoadedMirror(ff, lines);
      }
    }

    /** setBVH: nothing unless a parser is there and enabled; otherwise one
        entry per joint appended in list order, then every entry of the list
        linked to the first entry named by its parentName. */
    method SetBVH()
      requires bvh != null ==> bvh.Inv()
      modifies this
      ensures bvh == old(bvh) && mode == old(mode) && frame == old(frame) && isPlay == old(isPlay)
      ensures bvh == null || !bvh.isEnable ==> nodeList == old(nodeList)
      ensures bvh != null && bvh.isEnable ==> nodeList == LinkAll(old(nodeList) + Entries(bvh.nodeOrder))
    {
      if bvh == null {
        return;
      }
      if !bvh.isEnable {
        return;
      }
      var nodes := bvh.GetNodeList();
      var i := 0;
      while i < |nodes|
        invariant 0 <= i <= |nodes| && bvh == old(bvh) && nodes == bvh.nodeOrder && ParentsBefore(nodes)
        invariant mode == old(mode) && frame == old(frame) && isPlay == old(isPlay)
        invariant nodeList == old(nodeList) + Entries(nodes)[..i]
      {
        var node := nodes[i];
        var parentName := if node.parent.Some? then nodes[node.parent.value].name else "";
        var n := ViewNode(node.name, parentName, None, Scaled(node.offset));
        assert Entries(nodes)[..i + 1] == Entries(nodes)[..i] + [n];
        nodeList := nodeList + [n];
        i := i + 1;
      }
      assert Entries(nodes)[..i] == Entries(nodes);
      LinkParents();
    }

    /** The second loop of setBVH: for each entry, the inner loop looks for
        the first entry named by its parentName and stops there. */
    method LinkParents()
      modifies this
      ensures bvh == old(bvh) && mode == old(mode) && frame == old(frame) && isPlay == old(isPlay)
      ensures nodeList == LinkAll(old(nodeList))
    {
      ghost var before := nodeList;
      var i := 0;
      while i < |nodeList|
        invariant 0 <= i <= |nodeList| == |before|
        invariant bvh == old(bvh) && mode == old(mode) && frame == old(frame) && isPlay == old(isPlay)
        invariant forall k :: 0 <= k < i ==> nodeList[k] == Relinked(before, k)
        invariant forall k :: i <= k < |before| ==> nodeList[k] == before[k]
      {
        var found := FindNamed(nodeList[i].parentName);
        SameNamesFirst(nodeList, before, nodeList[i].parentName, 0);
        if found.Some? {
          nodeList := nodeList[i := nodeList[i].(parent := found)];
        }
        i := i + 1;
      }
    }

    /** The inner loop of the second loop of setBVH. */
    method FindNamed(name: string) returns (r: Option<nat>)
      ensures r == FirstNamed(nodeList, name, 0)
    {
      var j := 0;
      while j < |nodeList|
        invariant 0 <= j <= |nodeList|
        invariant FirstNamed(nodeList, name, 0) == FirstNamed(nodeList, name, j)
      {
        if nodeList[j].name == name {
          return Some(j);
        }
        j := j + 1;
      }
      return None;
    }

    /** The walk of drawBVH for entry i at a frame: from the entry up to the
        one without a parent, each pass multiplying on the rotation of the
        joint the parser finds under the entry's name and the translation by
        the entry's localPos; None is the exception of a name the parser does
        not know. */
    method GlobalFactors(i: nat, at: int) returns (matrix: Option<seq<Factor>>)
      requires bvh != null && bvh.Inv() && ParentsEarlier(nodeList) && i < |nodeList|
      ensures matrix == Global(bvh.Snapshot(), nodeList, i, at)
    {
      ghost var s := bvh.Snapshot();
      var acc: seq<Factor> := [];
      var current: nat := i;
      ThenNothing(Global(s, nodeList, i, at));
      while true
        invariant current < |nodeList|
        invariant Global(s, nodeList, i, at) == Then(acc, Global(s, nodeList, current, at))
        decreases current
      {
        var k := bvh.GetNode(nodeList[current].name);
        if k.None? {
          return None;
        }
        var rot := GetRotMatrixFromBVHNode(bvh.nodeOrder[k.value], at);
        var local := rot + [Translate(nodeList[current].localPos)];
        ThenStep(acc, local, s, nodeList, current, at);
        acc := acc + local;
        if nodeList[current].parent.None? {
          break;
        }
        current := nodeList[current].parent.value;
      }
      return Some(acc);
    }

    /** update, the frame part: see NextFrame. */
    method Update()
      modifies this
      ensures bvh == old(bvh) && mode == old(mode) && isPlay == old(isPlay) && nodeList == old(nodeList)
      ensures frame == NextFrame(mode, bvh != null, isPlay, old(frame), if bvh == null then 0 else bvh.frameNum)
    {
      match mode {
        case Bvh =>
          if bvh != null && isPlay {
            frame := Inc32(frame);
            if frame >= bvh.frameNum {
              frame := 0;
            }
          }
        case Obj =>
          frame := 0;
        case Unknown =>
      }
    }

    /** button2_Click: play and pause toggle. */
    method PlayPause()
      modifies this
      ensures isPlay == !old(isPlay)
      ensures bvh == old(bvh) && mode == old(mode) && frame == old(frame) && nodeList == old(nodeList)
    {
      isPlay := !isPlay;
    }

    /** trackBar1_Scroll: playback pauses at the frame the bar shows. */
    method TrackBarScroll(value: Int32)
      modifies this
      ensures !isPlay && frame == value
      ensures bvh == old(bvh) && mode == old(mode) && nodeList == old(nodeList)
    {
      isPlay := false;
      frame := value;
    }
  }

  /** The product so far followed by what the rest of the walk yields. */
  function Then(acc: seq<Factor>, rest: Option<seq<Factor>>): Option<seq<Factor>> {
    match rest
    case None => None
    case Some(g) => Some(acc + g)
  }

  /** One pass of the walk: the entry's factors join the product so far. */
  lemma ThenStep(acc: seq<Factor>, l: seq<Factor>, s: State, list: seq<ViewNode>, current: nat, frame: int)
    requires Valid(s) && ParentsEarlier(list) && current < |list|
    requires Local(s, list[current], frame) == Some(l)
    ensures list[current].parent.None? ==> Then(acc, Global(s, list, current, frame)) == Some(acc + l)
    ensures list[current].parent.Some? ==>
      Then(acc, Global(s, list, current, frame)) == Then(acc + l, Global(s, list, list[current].parent.value, frame))
  {
    if list[current].parent.Some? {
      match Global(s, list, list[current].parent.value, frame)
      case None =>
      case Some(g) =>
        assert acc + (l + g) == acc + l + g;
    }
  }

  lemma ThenNothing(g: Option<seq<Factor>>)
    ensures Then([], g) == g
  {
    if g.Some? {
      assert [] + g.value == g.value;
    }
  }

  /** The search for a name only looks at names. */
  lemma {:induction false} SameNamesFirst(a: seq<ViewNode>, b: seq<ViewNode>, name: string, k: nat)
    requires |a| == |b| && k <= |a|
    requires forall m :: 0 <= m < |a| ==> a[m].name == b[m].name
    ensures FirstNamed(a, name, k) == FirstNamed(b, name, k)
    decreases |a| - k
  {
    if k < |a| {
      SameNamesFirst(a, b, name, k + 1);
    }
  }
}
