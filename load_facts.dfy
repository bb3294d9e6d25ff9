/** The invariants Load keeps on the parser's fields: the joint list is a
    linked tree in pre-order, the target cursor sits on its right-most branch,
    and names are single words. */
module LoadFacts {
  import opened Options
  import opened Text
  import opened Skeleton
  import opened LoadSpec

  // ---------------------------------------------------------------------------
  // The tree invariant
  // ---------------------------------------------------------------------------

  /** The shape Load gives the joint list: parent and child links agree, the
      declaration order is a pre-order, the target is an ancestor of (or is)
      the last joint declared, the first joint and the root have no parent,
      and every name is a single word. */
  predicate Built(s: State) {
    Valid(s) && Linked(s.nodes) && PreOrder(s.nodes) && Cursors(s) && NamesAreTokens(s.nodes)
  }

  /** Where the cursors may point: the target is on the right-most branch,
      and the first joint and the root have no parent. */
  predicate Cursors(s: State)
    requires Valid(s)
  {
    (s.target.Some? ==> InSubtree(s.nodes, s.target.value, |s.nodes| - 1)) &&
    (|s.nodes| > 0 ==> s.nodes[0].parent.None? && s.root.Some?) &&
    (s.root.Some? ==> s.root.value < |s.nodes| && s.nodes[s.root.value].parent.None?)
  }

  predicate NamesAreTokens(nodes: seq<Node>) {
    forall i :: 0 <= i < |nodes| ==> IsToken(nodes[i].name)
  }

  lemma AppendKeepsNames(before: seq<Node>, nodes: seq<Node>, m: Node)
    requires NamesAreTokens(before) && IsToken(m.name)
    requires |nodes| == |before| && forall i :: 0 <= i < |nodes| ==> nodes[i].name == before[i].name
    ensures NamesAreTokens(nodes + [m])
  {
  }

  predicate AllTokens(w: seq<string>) {
    forall k :: 0 <= k < |w| ==> IsToken(w[k])
  }

  /** The first k joints of a and b have the same parents. */
  predicate SameParents(a: seq<Node>, b: seq<Node>, k: nat) {
    k <= |a| && k <= |b| && forall i :: 0 <= i < k ==> a[i].parent == b[i].parent
  }

  lemma {:induction false} ChildrenOfFrame(a: seq<Node>, b: seq<Node>, p: nat, k: nat)
    requires SameParents(a, b, k)
    ensures ChildrenOf(a, p, k) == ChildrenOf(b, p, k)
  {
    if k > 0 {
      ChildrenOfFrame(a, b, p, k - 1);
    }
  }

  lemma {:induction false} InSubtreeFrame(a: seq<Node>, b: seq<Node>, p: nat, x: nat)
    requires x < |a| && SameParents(a, b, x + 1)
    ensures InSubtree(a, p, x) == InSubtree(b, p, x)
    decreases x
  {
    if x != p && a[x].parent.Some? && a[x].parent.value < x {
      InSubtreeFrame(a, b, p, a[x].parent.value);
    }
  }

  /** No joint before p + 1 has p as parent. */
  lemma {:induction false} NoChildrenYet(nodes: seq<Node>, p: nat, k: nat)
    requires ParentsBefore(nodes) && k <= |nodes| && k <= p + 1
    ensures ChildrenOf(nodes, p, k) == []
  {
    if k > 0 {
      NoChildrenYet(nodes, p, k - 1);
    }
  }

  /** The joints keep their parents, children and names. */
  predicate SameTree(a: seq<Node>, b: seq<Node>) {
    |a| == |b| &&
    forall i :: 0 <= i < |a| ==>
      a[i].parent == b[i].parent && a[i].children == b[i].children && a[i].name == b[i].name
  }

  lemma LinkedFrame(a: seq<Node>, b: seq<Node>)
    requires Linked(a) && |a| == |b| && SameParents(a, b, |a|)
    requires forall i :: 0 <= i < |a| ==> a[i].children == b[i].children
    ensures Linked(b)
  {
    forall i | 0 <= i < |b|
      ensures b[i].children == ChildrenOf(b, i, |b|)
    {
      ChildrenOfFrame(a, b, i, |a|);
    }
  }

  lemma PreOrderFrame(a: seq<Node>, b: seq<Node>)
    requires PreOrder(a) && |a| == |b| && SameParents(a, b, |a|)
    ensures PreOrder(b)
  {
    forall i | 0 < i < |b|
      ensures AfterParent(b, i)
    {
      assert AfterParent(a, i);
      if b[i].parent.Some? {
        InSubtreeFrame(a, b, b[i].parent.value, i - 1);
      }
    }
  }

  /** Changing offsets, channels or samples keeps the tree invariant. */
  lemma BuiltSameTree(s: State, t: State)
    requires Built(s) && SameTree(s.nodes, t.nodes)
    requires t.root == s.root && t.target == s.target
    requires forall n :: n in t.dic ==> t.dic[n] < |t.nodes|
    ensures Built(t)
  {
    var n := |s.nodes|;
    assert SameParents(s.nodes, t.nodes, n);
    LinkedFrame(s.nodes, t.nodes);
    PreOrderFrame(s.nodes, t.nodes);
    if t.target.Some? {
      InSubtreeFrame(s.nodes, t.nodes, t.target.value, n - 1);
    }
  }

  /** Appending a childless joint whose parent, if any, is an earlier joint
      that records it as its last child keeps the links. */
  lemma AppendKeepsLinked(before: seq<Node>, nodes: seq<Node>, m: Node)
    requires Linked(before)
    requires m.children == [] && (m.parent.Some? ==> m.parent.value < |before|)
    requires SameParents(before, nodes, |before|) && |nodes| == |before|
    requires forall i :: 0 <= i < |nodes| ==>
      nodes[i].children == before[i].children + (if m.parent == Some(i) then [|before|] else [])
    ensures Linked(nodes + [m])
  {
    var n := |before|;
    var t := nodes + [m];
    assert SameParents(before, t, n);
    assert ParentsBefore(t);
    forall i | 0 <= i < n + 1
      ensures t[i].children == ChildrenOf(t, i, n + 1)
    {
      if i < n {
        assert before[i].children == ChildrenOf(before, i, n);
        ChildrenOfFrame(before, t, i, n);
      } else {
        NoChildrenYet(t, n, n + 1);
      }
    }
  }

  /** ... and the pre-order, when the parent is an ancestor of the last
      joint declared. */
  lemma AppendKeepsPreOrder(before: seq<Node>, nodes: seq<Node>, m: Node)
    requires PreOrder(before)
    requires m.parent.Some? ==> |before| > 0 && InSubtree(before, m.parent.value, |before| - 1)
    requires SameParents(before, nodes, |before|) && |nodes| == |before|
    ensures PreOrder(nodes + [m])
  {
    var n := |before|;
    var t := nodes + [m];
    assert SameParents(before, t, n);
    forall i | 0 < i <= n
      ensures AfterParent(t, i)
    {
      if i < n {
        assert AfterParent(before, i);
      }
      if t[i].parent.Some? {
        InSubtreeFrame(before, t, t[i].parent.value, i - 1);
      }
    }
  }

  /** A ROOT line appends a parentless joint that becomes root and target. */
  lemma RootBuilt(s: State, w: seq<string>)
    requires Built(s) && AllTokens(w)
    ensures Built(Root(s, w).0)
  {
    if |w| >= 2 {
      var n := |s.nodes|;
      var m := NewNode(None, w[1]);
      var r := Root(s, w).0;
      assert r.nodes == s.nodes + [m];
      AppendKeepsLinked(s.nodes, s.nodes, m);
      AppendKeepsPreOrder(s.nodes, s.nodes, m);
      assert IsToken(w[1]);
      AppendKeepsNames(s.nodes, s.nodes, m);
      assert InSubtree(r.nodes, n, n);
    }
  }

  lemma RootKeepsBuilt(ff: FloatFormat, s: State, w: seq<string>)
    requires Built(s) && AllTokens(w) && |w| >= 1 && w[0] == "ROOT"
    ensures Built(ParseHierarchySpec(ff, s, w).0)
  {
    RootBuilt(s, w);
  }

  /** A JOINT line appends a child of the target, which becomes the target. */
  lemma JointBuilt(s: State, w: seq<string>)
    requires Built(s) && AllTokens(w)
    ensures Built(Joint(s, w).0)
  {
    if |w| >= 2 && s.target.Some? {
      var t, n := s.target.value, |s.nodes|;
      var nodes := s.nodes[t := s.nodes[t].(children := s.nodes[t].children + [n])];
      var m := NewNode(Some(t), w[1]);
      var r := Joint(s, w).0;
      assert r.nodes == nodes + [m];
      AppendKeepsLinked(s.nodes, nodes, m);
      AppendKeepsPreOrder(s.nodes, nodes, m);
      assert IsToken(w[1]);
      AppendKeepsNames(s.nodes, nodes, m);
      assert InSubtree(r.nodes, n, n);
      assert r.nodes[0].parent == s.nodes[0].parent;
    }
  }

  lemma JointKeepsBuilt(ff: FloatFormat, s: State, w: seq<string>)
    requires Built(s) && AllTokens(w) && |w| >= 1 && w[0] == "JOINT"
    ensures Built(ParseHierarchySpec(ff, s, w).0)
  {
    JointBuilt(s, w);
  }

  lemma CloseKeepsBuilt(ff: FloatFormat, s: State, w: seq<string>)
    requires Built(s) && |w| >= 1 && w[0] == "}"
    ensures Built(ParseHierarchySpec(ff, s, w).0)
  {
    if s.target.Some? && s.nodes[s.target.value].parent.Some? {
      var t := s.target.value;
      var q := s.nodes[t].parent.value;
      assert InSubtree(s.nodes, q, t);
      InSubtreeTrans(s.nodes, q, t, |s.nodes| - 1);
    }
  }

  lemma OffsetKeepsBuilt(ff: FloatFormat, s: State, w: seq<string>)
    requires Built(s) && |w| >= 1 && w[0] == "OFFSET"
    ensures Built(ParseHierarchySpec(ff, s, w).0)
  {
    if |w| >= 4 && ff.parse(w[1]).Some? && ff.parse(w[2]).Some? && ff.parse(w[3]).Some? && s.target.Some? {
      var t := s.target.value;
      var v := Vec3(ff.parse(w[1]).value, ff.parse(w[2]).value, ff.parse(w[3]).value);
      var s' := s.(nodes := s.nodes[t := s.nodes[t].(offset := v)]);
      assert Built(s') by {
        BuiltSameTree(s, s');
      }
    }
  }

  lemma {:induction false} AddChannelsKeepsBuilt(s: State, w: seq<string>, i: nat, n: int)
    requires Built(s)
    ensures Built(AddChannels(s, w, i, n).0)
    decreases n - i
  {
    if i < n && i + 2 < |w| && ChannelFromName(w[i + 2]).Some? && s.target.Some? {
      var t := s.target.value;
      var c := ChannelFromName(w[i + 2]).value;
      var s' := s.(nodes := s.nodes[t := s.nodes[t].(channels := s.nodes[t].channels + [c])]);
      BuiltSameTree(s, s');
      AddChannelsKeepsBuilt(s', w, i + 1, n);
    }
  }

  lemma ChannelsKeepsBuilt(ff: FloatFormat, s: State, w: seq<string>)
    requires Built(s) && |w| >= 1 && w[0] == "CHANNELS"
    ensures Built(ParseHierarchySpec(ff, s, w).0)
  {
    if |w| >= 2 && ParseInt(w[1]).Some? {
      AddChannelsKeepsBuilt(s, w, 0, ParseInt(w[1]).value);
    }
  }

  lemma ParseHierarchyKeepsBuilt(ff: FloatFormat, s: State, w: seq<string>)
    requires Built(s) && AllTokens(w) && |w| >= 1
    ensures Built(ParseHierarchySpec(ff, s, w).0)
  {
    if w[0] == "ROOT" {
      RootKeepsBuilt(ff, s, w);
    } else if w[0] == "}" {
      CloseKeepsBuilt(ff, s, w);
    } else if w[0] == "OFFSET" {
      OffsetKeepsBuilt(ff, s, w);
    } else if w[0] == "CHANNELS" {
      ChannelsKeepsBuilt(ff, s, w);
    } else if w[0] == "JOINT" {
      JointKeepsBuilt(ff, s, w);
    }
  }

  /** A header line changes only the frame fields. */
  lemma HeaderKeepsBuilt(ff: FloatFormat, s: State, w: seq<string>)
    requires Built(s) && |w| >= 1 && (!s.isFrameNum || !s.isFrameSpan)
    ensures Built(ParseMotionSpec(ff, s, w).0)
  {
    BuiltFields(s, Header(ff, s, w).0);
  }

  lemma SampleKeepsBuilt(ff: FloatFormat, s: State, w: seq<string>)
    requires Built(s) && |w| >= 1 && s.isFrameNum && s.isFrameSpan
    ensures Built(ParseMotionSpec(ff, s, w).0)
  {
    var (nodes, ok) := FillFrom(ff, s.nodes, 0, w, 0, s.motionNum);
    BuiltSameTree(s, s.(nodes := nodes));
  }

  lemma ParseMotionKeepsBuilt(ff: FloatFormat, s: State, w: seq<string>)
    requires Built(s) && |w| >= 1
    ensures Built(ParseMotionSpec(ff, s, w).0)
  {
    if s.isFrameNum && s.isFrameSpan {
      SampleKeepsBuilt(ff, s, w);
    } else {
      HeaderKeepsBuilt(ff, s, w);
    }
  }

  /** The invariant is about the joints, the cursors and the name index only. */
  lemma BuiltFields(s: State, t: State)
    requires Built(s)
    requires t.nodes == s.nodes && t.root == s.root && t.target == s.target && t.dic == s.dic
    ensures Built(t)
  {
    assert Valid(t) by {
      assert Valid(s);
    }
    assert Cursors(t) by {
      assert Cursors(s);
    }
    assert Linked(t.nodes) && PreOrder(t.nodes) && NamesAreTokens(t.nodes) by {
      assert Linked(s.nodes) && PreOrder(s.nodes) && NamesAreTokens(s.nodes);
    }
  }

  /** A line that ParseHierarchy reads. */
  predicate IsHierarchyLine(s: State, w: seq<string>) {
    s.mode == Hierarchy && w != [] && w[0] != "HIERARCHY" && w[0] != "MOTION" &&
    !(w[0] == "End" && (|w| < 2 || w[1] == "Site"))
  }

  /** A line that ParseMotion reads. */
  predicate IsMotionLine(s: State, w: seq<string>) {
    s.mode == Motion && w != [] && w[0] != "HIERARCHY" && w[0] != "MOTION"
  }

  lemma HierarchyStepKeepsBuilt(ff: FloatFormat, s: State, lines: seq<seq<string>>)
    requires Built(s) && lines != [] && WordLines(lines) && IsHierarchyLine(s, lines[0])
    ensures Built(Step(ff, s, lines).state)
  {
    var w := lines[0];
    ParseHierarchyKeepsBuilt(ff, s, w);
    assert Step(ff, s, lines).state == ParseHierarchySpec(ff, s, w).0;
  }

  lemma MotionStepKeepsBuilt(ff: FloatFormat, s: State, lines: seq<seq<string>>)
    requires Built(s) && lines != [] && IsMotionLine(s, lines[0])
    ensures Built(Step(ff, s, lines).state)
  {
    var w := lines[0];
    ParseMotionKeepsBuilt(ff, s, w);
    assert Step(ff, s, lines).state == ParseMotionSpec(ff, s, w).0;
  }

  /** Every other line changes at most the mode. */
  lemma OtherStepKeepsBuilt(ff: FloatFormat, s: State, lines: seq<seq<string>>)
    requires Built(s) && lines != []
    requires !IsHierarchyLine(s, lines[0]) && !IsMotionLine(s, lines[0])
    ensures Built(Step(ff, s, lines).state)
  {
    var r := Step(ff, s, lines).state;
    assert r == s || r == s.(mode := Hierarchy) || r == s.(mode := Motion);
    BuiltFields(s, r);
  }

  lemma StepKeepsBuilt(ff: FloatFormat, s: State, lines: seq<seq<string>>)
    requires Built(s) && lines != [] && WordLines(lines)
    ensures Built(Step(ff, s, lines).state)
  {
    var w := lines[0];
    if IsHierarchyLine(s, w) {
      HierarchyStepKeepsBuilt(ff, s, lines);
    } else if IsMotionLine(s, w) {
      MotionStepKeepsBuilt(ff, s, lines);
    } else {
      OtherStepKeepsBuilt(ff, s, lines);
    }
  }

  lemma FinishKeepsBuilt(s: State)
    requires Built(s)
    ensures Built(Finish(s).0)
  {
    BuiltSameTree(s, Finish(s).0);
  }

  /** Whatever Load reads, and wherever it stops, the tree invariant holds. */
  lemma {:induction false} RunKeepsBuilt(ff: FloatFormat, s: State, lines: seq<seq<string>>)
    requires Built(s) && WordLines(lines)
    ensures Built(Run(ff, s, lines).0)
    decreases |lines|
  {
    if lines == [] {
      FinishKeepsBuilt(s);
    } else {
      StepKeepsBuilt(ff, s, lines);
      match Step(ff, s, lines)
      case Continue(s', rest) =>
        WordLinesSuffix(lines, |lines| - |rest|);
        RunKeepsBuilt(ff, s', rest);
      case Stop(_, _) =>
    }
  }

  /** Load starts from an empty joint list, which has the tree invariant. */
  lemma ResetIsBuilt(s: State)
    ensures Built(Reset(s))
  {
  }

  lemma WordLinesSuffix(lines: seq<seq<string>>, i: nat)
    requires WordLines(lines) && i <= |lines|
    ensures WordLines(lines[i..])
  {
    assert forall k :: 0 <= k < |lines| - i ==> lines[i..][k] == lines[i + k];
  }

  /** After Load, whether it finished or stopped early, the tree invariant
      holds. */
  lemma LoadKeepsBuilt(ff: FloatFormat, s: State, lines: seq<string>)
    requires Valid(s)
    ensures Built(Load(ff, s, lines).0)
  {
    ResetIsBuilt(s);
    TokenizeLinesWords(lines);
    RunKeepsBuilt(ff, Reset(s), TokenizeLines(lines));
  }
}
