/** What BVHParser.Save writes, as lists of lines: WriteHierarchy and the
    recursive WriteJoint with GetStringJointName, GetStringOffset and
    GetStringChannel, then WriteMotion. */
module SaveSpec {
  import opened Options
  import opened Text
  import opened Skeleton
  import opened LoadSpec

  /** Every child index lies after its parent and inside the list, so the
      recursive dump comes to an end. */
  predicate ChildrenAfter(nodes: seq<Node>) {
    forall i, j :: 0 <= i < |nodes| && 0 <= j < |nodes[i].children| ==> i < nodes[i].children[j] < |nodes|
  }

  /** A linked joint list can be dumped. */
  lemma LinkedChildrenAfter(nodes: seq<Node>)
    requires Linked(nodes)
    ensures ChildrenAfter(nodes)
  {
    forall i, j | 0 <= i < |nodes| && 0 <= j < |nodes[i].children|
      ensures i < nodes[i].children[j] < |nodes|
    {
      ChildIsAfter(nodes, i, nodes[i].children[j]);
    }
  }

  // ---------------------------------------------------------------------------
  // Pieces of text
  // ---------------------------------------------------------------------------

  /** Words each followed by one space, as GetStringChannel and WriteMotion
      grow their buffer. */
  function Spaced(ts: seq<string>): string {
    if ts == [] then "" else ts[0] + " " + Spaced(ts[1..])
  }

  /** The indentation of a block at depth n. */
  function Tabs(n: nat): string {
    if n == 0 then "" else Tabs(n - 1) + "\t"
  }

  /** GetStringOffset. */
  function OffsetText(ff: FloatFormat, v: Vec3): string {
    "OFFSET " + ff.show(v.x) + " " + ff.show(v.y) + " " + ff.show(v.z)
  }

  /** The name of each channel, in stored order. */
  function NamesOf(cs: seq<Channel>): (names: seq<string>)
    ensures |names| == |cs|
  {
    seq(|cs|, k requires 0 <= k < |cs| => ChannelName(cs[k]))
  }

  /** GetStringChannel: the count, then every channel's name with a space after it. */
  function ChannelText(cs: seq<Channel>): string {
    "CHANNELS " + FormatInt(|cs|) + " " + Spaced(NamesOf(cs))
  }

  /** GetStringJointName. */
  function JointName(name: string): string {
    "JOINT " + name
  }

  /** The End Site block written for a joint without children. */
  function EndSiteLines(ff: FloatFormat, tab: string, v: Vec3): seq<string> {
    [tab + "\tEnd Site", tab + "\t{", tab + "\t\t" + OffsetText(ff, v), tab + "\t}"]
  }

  // ---------------------------------------------------------------------------
  // WriteHierarchy and WriteJoint
  // ---------------------------------------------------------------------------

  /** The block of joint a at depth layer, shared by the root and the joints:
      its head line and then its body. */
  function BlockLines(ff: FloatFormat, nodes: seq<Node>, a: nat, layer: nat, head: string, leafOffset: Vec3): seq<string>
    requires ChildrenAfter(nodes) && a < |nodes|
    decreases |nodes| - a, |nodes[a].children| + 3
  {
    [Tabs(layer) + head] + BlockBody(ff, nodes, a, layer, leafOffset)
  }

  /** A block after its head line: brace, offset, channels, what is inside,
      closing brace. */
  function BlockBody(ff: FloatFormat, nodes: seq<Node>, a: nat, layer: nat, leafOffset: Vec3): seq<string>
    requires ChildrenAfter(nodes) && a < |nodes|
    decreases |nodes| - a, |nodes[a].children| + 2
  {
    var tab, n := Tabs(layer), nodes[a];
    [tab + "{", tab + "\t" + OffsetText(ff, n.offset), tab + "\t" + ChannelText(n.channels)]
    + Inner(ff, nodes, a, layer, leafOffset)
    + [tab + "}"]
  }

  /** Inside a block: an End Site with leafOffset if a has no children, the
      blocks of its children one level deeper otherwise. */
  function Inner(ff: FloatFormat, nodes: seq<Node>, a: nat, layer: nat, leafOffset: Vec3): seq<string>
    requires ChildrenAfter(nodes) && a < |nodes|
    decreases |nodes| - a, |nodes[a].children| + 1
  {
    if nodes[a].children == [] then EndSiteLines(ff, Tabs(layer), leafOffset)
    else ChildLines(ff, nodes, a, 0, layer + 1)
  }

  /** WriteJoint(wr, node, layer): a leaf's End Site is written as 0 0 0. */
  function JointLines(ff: FloatFormat, nodes: seq<Node>, a: nat, layer: nat): seq<string>
    requires ChildrenAfter(nodes) && a < |nodes|
    decreases |nodes| - a, |nodes[a].children| + 4
  {
    BlockLines(ff, nodes, a, layer, JointName(nodes[a].name), Zero)
  }

  /** The foreach over node.Nodes from child j on. */
  function ChildLines(ff: FloatFormat, nodes: seq<Node>, a: nat, j: nat, layer: nat): seq<string>
    requires ChildrenAfter(nodes) && a < |nodes| && j <= |nodes[a].children|
    decreases |nodes| - a, |nodes[a].children| - j
  {
    if j == |nodes[a].children| then []
    else JointLines(ff, nodes, nodes[a].children[j], layer) + ChildLines(ff, nodes, a, j + 1, layer)
  }

  /** The root block; a root without children gets an End Site with the
      root's own offset. */
  function RootLines(ff: FloatFormat, nodes: seq<Node>, r: nat): seq<string>
    requires ChildrenAfter(nodes) && r < |nodes|
  {
    BlockLines(ff, nodes, r, 0, "ROOT " + nodes[r].name, nodes[r].offset)
  }

  /** WriteHierarchy(wr, _root); false is the null dereference of a parser
      without a root, which happens after HIERARCHY has been written. */
  function HierarchyLines(ff: FloatFormat, s: State): (seq<string>, bool)
    requires Valid(s) && ChildrenAfter(s.nodes)
  {
    match s.root
    case None => (["HIERARCHY"], false)
    case Some(r) => (["HIERARCHY"] + RootLines(ff, s.nodes, r), true)
  }

  // ---------------------------------------------------------------------------
  // WriteMotion
  // ---------------------------------------------------------------------------

  /** What the switch of WriteMotion writes for channel c at frame f: the
      component of the position or rotation sample that c names. */
  function ChannelValue(n: Node, f: int, c: Channel): real {
    if c.IsPosition() then n.GetMotionPos(f).Get(c.Axis()) else n.GetMotionRot(f).Get(c.Axis())
  }

  /** The words of joint n at frame f, one per channel in stored order. */
  function NodeValues(ff: FloatFormat, n: Node, f: int): (vs: seq<string>)
    ensures |vs| == |n.channels|
  {
    seq(|n.channels|, k requires 0 <= k < |n.channels| => ff.show(ChannelValue(n, f, n.channels[k])))
  }

  /** The number of channels of the first k joints. */
  function ChannelCount(nodes: seq<Node>, k: nat): nat
    requires k <= |nodes|
  {
    if k == 0 then 0 else ChannelCount(nodes, k - 1) + |nodes[k - 1].channels|
  }

  /** The words of the first k joints at frame f, in _nodeOrder order. */
  function FrameValues(ff: FloatFormat, nodes: seq<Node>, f: int, k: nat): seq<string>
    requires k <= |nodes|
  {
    if k == 0 then [] else FrameValues(ff, nodes, f, k - 1) + NodeValues(ff, nodes[k - 1], f)
  }

  /** The line of frame f. */
  function FrameLine(ff: FloatFormat, nodes: seq<Node>, f: int): string {
    Spaced(FrameValues(ff, nodes, f, |nodes|))
  }

  /** The frames WriteMotion writes: 0 up to FrameNum, none if FrameNum is not positive. */
  function FrameTotal(s: State): nat {
    if s.frameNum < 0 then 0 else s.frameNum
  }

  /** WriteMotion: the header, one line per frame and a blank line. */
  function MotionLines(ff: FloatFormat, s: State): seq<string> {
    ["MOTION", "Frames: " + FormatInt(s.frameNum), "Frame Time: " + ff.show(s.frameSpan)]
    + seq(FrameTotal(s), f requires 0 <= f < FrameTotal(s) => FrameLine(ff, s.nodes, f))
    + [""]
  }

  /** Save: the hierarchy, then the motion; false when WriteHierarchy threw. */
  function SaveLines(ff: FloatFormat, s: State): (seq<string>, bool)
    requires Valid(s) && ChildrenAfter(s.nodes)
  {
    var (h, ok) := HierarchyLines(ff, s);
    if ok then (h + MotionLines(ff, s), true) else (h, false)
  }

  // ---------------------------------------------------------------------------
  // How the written lines read back
  // ---------------------------------------------------------------------------

  /** An indentation is tabs only. */
  lemma {:induction false} TabsWhite(n: nat)
    ensures AllWhiteSpace(Tabs(n)) && NoSpace(Tabs(n))
  {
    if n > 0 {
      TabsWhite(n - 1);
    }
  }

  /** Spaced words are the words joined with spaces, plus one more space. */
  lemma {:induction false} SpacedJoin(ts: seq<string>)
    requires |ts| >= 1
    ensures Spaced(ts) == JoinSpaces(ts) + " "
    decreases |ts|
  {
    if |ts| > 1 {
      SpacedJoin(ts[1..]);
    }
  }

  /** Spacing distributes over concatenation. */
  lemma {:induction false} SpacedAppend(a: seq<string>, b: seq<string>)
    ensures Spaced(a + b) == Spaced(a) + Spaced(b)
    decreases |a|
  {
    if a != [] {
      assert (a + b)[1..] == a[1..] + b;
      SpacedAppend(a[1..], b);
    } else {
      assert a + b == b;
    }
  }

  /** Indented spaced words read back as the same words. */
  lemma {:induction false} TokenizeSpaced(indent: string, ts: seq<string>)
    requires AllWhiteSpace(indent) && NoSpace(indent)
    requires |ts| >= 1 && forall k :: 0 <= k < |ts| ==> IsToken(ts[k])
    ensures Tokenize(indent + Spaced(ts)) == ts
  {
    SpacedJoin(ts);
    assert indent + Spaced(ts) == (indent + JoinSpaces(ts)) + " " + "";
    TokenizeAtSpace(indent + JoinSpaces(ts), "");
    TokenizeJoined(indent, ts);
    TokenizeEmpty();
  }

  /** A frame line reads back as its values; a line with no values is blank. */
  lemma FrameLineWords(ff: FloatFormat, nodes: seq<Node>, f: int)
    requires forall k :: 0 <= k < |FrameValues(ff, nodes, f, |nodes|)| ==> IsToken(FrameValues(ff, nodes, f, |nodes|)[k])
    ensures Tokenize(FrameLine(ff, nodes, f)) == FrameValues(ff, nodes, f, |nodes|)
  {
    var vs := FrameValues(ff, nodes, f, |nodes|);
    if vs == [] {
      TokenizeEmpty();
    } else {
      assert Tokenize("" + Spaced(vs)) == vs by { TokenizeSpaced("", vs); }
      assert "" + Spaced(vs) == Spaced(vs);
    }
  }

  /** A CHANNELS line reads back as the keyword, the count and the names. */
  lemma ChannelLineWords(indent: string, cs: seq<Channel>)
    requires AllWhiteSpace(indent) && NoSpace(indent)
    ensures Tokenize(indent + ChannelText(cs)) == ["CHANNELS", FormatInt(|cs|)] + NamesOf(cs)
  {
    var n, names := FormatInt(|cs|), NamesOf(cs);
    assert ChannelText(cs) == "CHANNELS" + " " + n + " " + Spaced(names) by {
      assert "CHANNELS " == "CHANNELS" + " ";
    }
    assert Tokenize(indent + ("CHANNELS" + " " + n + " " + Spaced(names))) == ["CHANNELS", n] + names by {
      HeadWords(indent, "CHANNELS", n, names);
    }
  }

  /** Two leading words and then spaced words read back as all of them. */
  lemma HeadWords(indent: string, a: string, b: string, names: seq<string>)
    requires AllWhiteSpace(indent) && NoSpace(indent) && IsToken(a) && IsToken(b)
    requires forall k :: 0 <= k < |names| ==> IsToken(names[k])
    ensures Tokenize(indent + (a + " " + b + " " + Spaced(names))) == [a, b] + names
  {
    TwoLeading(indent, a, b, Spaced(names));
    SpacedNames(names);
  }

  /** Two indented words and the rest of a line. */
  lemma TwoLeading(indent: string, a: string, b: string, rest: string)
    requires AllWhiteSpace(indent) && NoSpace(indent) && IsToken(a) && IsToken(b)
    ensures Tokenize(indent + (a + " " + b + " " + rest)) == [a, b] + Tokenize(rest)
  {
    var tail := b + " " + rest;
    Regroup(a, b, rest);
    TokenizeLeading(indent, a, tail);
    OneLeading(b, rest);
  }

  lemma OneLeading(b: string, rest: string)
    requires IsToken(b)
    ensures Tokenize(b + " " + rest) == [b] + Tokenize(rest)
  {
    TokenizeLeading("", b, rest);
    assert "" + (b + " " + rest) == b + " " + rest;
  }

  /** Spaced words read back, and no words read as nothing. */
  lemma SpacedNames(names: seq<string>)
    requires forall k :: 0 <= k < |names| ==> IsToken(names[k])
    ensures Tokenize(Spaced(names)) == names
  {
    if names == [] {
      assert Spaced(names) == "";
      TokenizeEmpty();
    } else {
      assert Tokenize("" + Spaced(names)) == names by { TokenizeSpaced("", names); }
      assert "" + Spaced(names) == Spaced(names);
    }
  }

  lemma Regroup(a: string, b: string, rest: string)
    ensures a + " " + b + " " + rest == a + " " + (b + " " + rest)
  {
  }

  /** The names written are the ones the CHANNELS case accepts, each for the
      channel it was written for. */
  lemma NamesReadBack(cs: seq<Channel>, k: nat)
    requires k < |cs|
    ensures ChannelFromName(NamesOf(cs)[k]) == Some(cs[k])
  {
    ChannelNames(NamesOf(cs)[k], cs[k]);
  }

  /** An OFFSET line reads back as the keyword and the three numbers. */
  lemma OffsetLineWords(ff: FloatFormat, indent: string, v: Vec3)
    requires AllWhiteSpace(indent) && NoSpace(indent)
    requires IsToken(ff.show(v.x)) && IsToken(ff.show(v.y)) && IsToken(ff.show(v.z))
    ensures Tokenize(indent + OffsetText(ff, v)) == ["OFFSET", ff.show(v.x), ff.show(v.y), ff.show(v.z)]
  {
    var ts := ["OFFSET", ff.show(v.x), ff.show(v.y), ff.show(v.z)];
    assert JoinSpaces(ts[3..]) == ff.show(v.z);
    assert JoinSpaces(ts[2..]) == ff.show(v.y) + " " + ff.show(v.z);
    assert JoinSpaces(ts[1..]) == ff.show(v.x) + " " + (ff.show(v.y) + " " + ff.show(v.z));
    assert OffsetText(ff, v) == JoinSpaces(ts);
    assert IsToken("OFFSET");
    TokenizeJoined(indent, ts);
  }

  /** A line of two words read back. */
  lemma TwoWords(indent: string, a: string, b: string)
    requires AllWhiteSpace(indent) && NoSpace(indent) && IsToken(a) && IsToken(b)
    ensures Tokenize(indent + (a + " " + b)) == [a, b]
  {
    assert JoinSpaces([a, b]) == a + " " + b;
    TokenizeJoined(indent, [a, b]);
  }

  /** The number of words in a frame line is the number of channels. */
  lemma {:induction false} FrameValuesCount(ff: FloatFormat, nodes: seq<Node>, f: int, k: nat)
    requires k <= |nodes|
    ensures |FrameValues(ff, nodes, f, k)| == ChannelCount(nodes, k)
  {
    if k > 0 {
      FrameValuesCount(ff, nodes, f, k - 1);
    }
  }

  /** Joint k's words sit in the frame line right after the words of the
      joints before it. */
  lemma {:induction false} FrameValuesAt(ff: FloatFormat, nodes: seq<Node>, f: int, k: nat, m: nat, ch: nat)
    requires k < m <= |nodes| && ch < |nodes[k].channels|
    ensures ChannelCount(nodes, k) + ch < |FrameValues(ff, nodes, f, m)|
    ensures FrameValues(ff, nodes, f, m)[ChannelCount(nodes, k) + ch] == NodeValues(ff, nodes[k], f)[ch]
    decreases m
  {
    FrameValuesCount(ff, nodes, f, m - 1);
    FrameValuesCount(ff, nodes, f, k);
    if k < m - 1 {
      FrameValuesAt(ff, nodes, f, k, m - 1, ch);
      ChannelCountGrows(nodes, k + 1, m - 1);
    }
  }

  lemma {:induction false} ChannelCountGrows(nodes: seq<Node>, k: nat, m: nat)
    requires k <= m <= |nodes|
    ensures ChannelCount(nodes, k) <= ChannelCount(nodes, m)
    decreases m
  {
    if k < m {
      ChannelCountGrows(nodes, k, m - 1);
    }
  }

  /** WriteMotion writes the header, FrameNum frame lines (none when it is not
      positive) and a final blank line. */
  lemma MotionShape(ff: FloatFormat, s: State)
    ensures var m := MotionLines(ff, s);
      |m| == 4 + FrameTotal(s) && m[|m| - 1] == "" &&
      m[..3] == ["MOTION", "Frames: " + FormatInt(s.frameNum), "Frame Time: " + ff.show(s.frameSpan)]
  {
  }

  /** Line 3 + f of the motion block is the line of frame f. */
  lemma MotionFrameAt(ff: FloatFormat, s: State, f: nat)
    requires f < FrameTotal(s)
    ensures 3 + f < |MotionLines(ff, s)| && MotionLines(ff, s)[3 + f] == FrameLine(ff, s.nodes, f)
  {
    var head := ["MOTION", "Frames: " + FormatInt(s.frameNum), "Frame Time: " + ff.show(s.frameSpan)];
    var body := seq(FrameTotal(s), g requires 0 <= g < FrameTotal(s) => FrameLine(ff, s.nodes, g));
    assert MotionLines(ff, s) == head + (body + [""]);
    assert (body + [""])[f] == body[f];
  }
}
