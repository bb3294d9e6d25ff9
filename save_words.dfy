/** The saved hierarchy as the line loop of Load sees it: every line Save
    writes, cut into its words. The indentation disappears and each block
    becomes a fixed pattern of word lines. */
module SaveWords {
  import opened Text
  import opened Skeleton
  import opened LoadSpec
  import opened SaveSpec

  /** The words of an OFFSET line. */
  function OffsetWords(ff: FloatFormat, v: Vec3): seq<string> {
    ["OFFSET", ff.show(v.x), ff.show(v.y), ff.show(v.z)]
  }

  /** The words of a CHANNELS line. */
  function ChannelWords(cs: seq<Channel>): seq<string> {
    ["CHANNELS", FormatInt(|cs|)] + NamesOf(cs)
  }

  /** The words of an End Site block. */
  function EndSiteWords(ff: FloatFormat, v: Vec3): seq<seq<string>> {
    [["End", "Site"], ["{"], OffsetWords(ff, v), ["}"]]
  }

  /** The words of a block after its head line. */
  function BodyWords(ff: FloatFormat, nodes: seq<Node>, a: nat, leafOffset: Vec3): seq<seq<string>>
    requires ChildrenAfter(nodes) && a < |nodes|
    decreases |nodes| - a, |nodes[a].children| + 2
  {
    var n := nodes[a];
    [["{"], OffsetWords(ff, n.offset), ChannelWords(n.channels)] +
    (InnerWords(ff, nodes, a, leafOffset) + [["}"]])
  }

  /** The words of what is inside a block. */
  function InnerWords(ff: FloatFormat, nodes: seq<Node>, a: nat, leafOffset: Vec3): seq<seq<string>>
    requires ChildrenAfter(nodes) && a < |nodes|
    decreases |nodes| - a, |nodes[a].children| + 1
  {
    if nodes[a].children == [] then EndSiteWords(ff, leafOffset)
    else ChildWords(ff, nodes, a, 0)
  }

  /** The words of the block of a joint below the root. */
  function JointWords(ff: FloatFormat, nodes: seq<Node>, a: nat): seq<seq<string>>
    requires ChildrenAfter(nodes) && a < |nodes|
    decreases |nodes| - a, |nodes[a].children| + 3
  {
    [["JOINT", nodes[a].name]] + BodyWords(ff, nodes, a, Zero)
  }

  /** The words of the blocks of the children of a from the j-th on. */
  function ChildWords(ff: FloatFormat, nodes: seq<Node>, a: nat, j: nat): seq<seq<string>>
    requires ChildrenAfter(nodes) && a < |nodes| && j <= |nodes[a].children|
    decreases |nodes| - a, |nodes[a].children| - j
  {
    if j == |nodes[a].children| then []
    else JointWords(ff, nodes, nodes[a].children[j]) + ChildWords(ff, nodes, a, j + 1)
  }

  /** The words of the root block. */
  function RootWords(ff: FloatFormat, nodes: seq<Node>, r: nat): seq<seq<string>>
    requires ChildrenAfter(nodes) && r < |nodes|
  {
    [["ROOT", nodes[r].name]] + BodyWords(ff, nodes, r, nodes[r].offset)
  }

  /** The names and offsets of the joints, and the zero offset of a leaf's
      End Site, are written so that they read back. */
  predicate Readable(ff: FloatFormat, nodes: seq<Node>) {
    ShowsExactly(ff, 0.0) &&
    forall i :: 0 <= i < |nodes| ==>
      IsToken(nodes[i].name) && |nodes[i].channels| <= Int32Max &&
      ShowsExactly(ff, nodes[i].offset.x) && ShowsExactly(ff, nodes[i].offset.y) &&
      ShowsExactly(ff, nodes[i].offset.z)
  }

  // ---------------------------------------------------------------------------
  // Cutting lines
  // ---------------------------------------------------------------------------

  /** A list is its two halves. */
  lemma Halves<T>(l: seq<T>, n: nat, x: seq<T>, y: seq<T>)
    requires n <= |l| && l[..n] == x && l[n..] == y
    ensures l == x + y
  {
    assert l == l[..n] + l[n..];
  }

  lemma TokenizeLinesFront(a: seq<string>, b: seq<string>)
    ensures TokenizeLines(a + b)[..|a|] == TokenizeLines(a)
  {
    forall k | 0 <= k < |a|
      ensures TokenizeLines(a + b)[k] == TokenizeLines(a)[k]
    {
      assert (a + b)[k] == a[k];
    }
  }

  lemma TokenizeLinesBack(a: seq<string>, b: seq<string>)
    ensures TokenizeLines(a + b)[|a|..] == TokenizeLines(b)
  {
    forall k | 0 <= k < |b|
      ensures TokenizeLines(a + b)[|a| + k] == TokenizeLines(b)[k]
    {
      assert (a + b)[|a| + k] == b[k];
    }
  }

  /** Lines are cut one by one. */
  lemma TokenizeLinesAppend(a: seq<string>, b: seq<string>)
    ensures TokenizeLines(a + b) == TokenizeLines(a) + TokenizeLines(b)
  {
    TokenizeLinesFront(a, b);
    TokenizeLinesBack(a, b);
    Halves(TokenizeLines(a + b), |a|, TokenizeLines(a), TokenizeLines(b));
  }

  lemma TokenizeLinesOne(line: string)
    ensures TokenizeLines([line]) == [Tokenize(line)]
  {
  }

  lemma TokenizeLinesThree(a: string, b: string, c: string)
    ensures TokenizeLines([a, b, c]) == [Tokenize(a), Tokenize(b), Tokenize(c)]
  {
    Cat3(a, b, c);
    TokenizeLinesAppend([a] + [b], [c]);
    TokenizeLinesAppend([a], [b]);
    TokenizeLinesOne(a);
    TokenizeLinesOne(b);
    TokenizeLinesOne(c);
    Cat3(Tokenize(a), Tokenize(b), Tokenize(c));
  }

  lemma TokenizeLinesFour(a: string, b: string, c: string, d: string)
    ensures TokenizeLines([a, b, c, d]) == [Tokenize(a), Tokenize(b), Tokenize(c), Tokenize(d)]
  {
    Cat4(a, b, c, d);
    TokenizeLinesAppend([a, b, c], [d]);
    TokenizeLinesThree(a, b, c);
    TokenizeLinesOne(d);
    Cat4(Tokenize(a), Tokenize(b), Tokenize(c), Tokenize(d));
  }

  lemma Cat3<T>(x: T, y: T, z: T)
    ensures [x] + [y] + [z] == [x, y, z]
  {
  }

  lemma Cat4<T>(x: T, y: T, z: T, w: T)
    ensures [x, y, z] + [w] == [x, y, z, w]
  {
  }

  /** An indentation: white space without a space. */
  predicate Indent(tab: string) {
    AllWhiteSpace(tab) && NoSpace(tab)
  }

  lemma Deeper(tab: string)
    requires Indent(tab)
    ensures Indent(tab + "\t")
  {
  }

  lemma Assoc<T>(a: seq<T>, b: seq<T>, c: seq<T>)
    ensures a + (b + c) == a + b + c
  {
  }

  /** One indented word. */
  lemma WordLine(tab: string, t: string)
    requires Indent(tab) && IsToken(t)
    ensures Tokenize(tab + t) == [t]
  {
    TokenizeWord(tab, t);
  }

  /** An indented head line `head name`. */
  lemma HeadLineWords(tab: string, line: string, head: string, name: string)
    requires Indent(tab) && IsToken(head) && IsToken(name) && line == head + " " + name
    ensures Tokenize(tab + line) == [head, name]
  {
    TwoWords(tab, head, name);
  }

  /** An OFFSET line one level deeper. */
  lemma OffsetLineSaid(ff: FloatFormat, tab: string, v: Vec3)
    requires Indent(tab)
    requires ShowsExactly(ff, v.x) && ShowsExactly(ff, v.y) && ShowsExactly(ff, v.z)
    ensures Tokenize(tab + "\t" + OffsetText(ff, v)) == OffsetWords(ff, v)
  {
    Deeper(tab);
    OffsetLineWords(ff, tab + "\t", v);
  }

  /** A CHANNELS line one level deeper. */
  lemma ChannelLineSaid(tab: string, cs: seq<Channel>)
    requires Indent(tab)
    ensures Tokenize(tab + "\t" + ChannelText(cs)) == ChannelWords(cs)
  {
    Deeper(tab);
    ChannelLineWords(tab + "\t", cs);
  }

  // ---------------------------------------------------------------------------
  // Blocks
  // ---------------------------------------------------------------------------

  /** The first line of an End Site block. */
  lemma EndSiteHead(tab: string)
    requires Indent(tab)
    ensures Tokenize(tab + "\tEnd Site") == ["End", "Site"]
  {
    assert "\tEnd Site" == "\t" + "End Site";
    Assoc(tab, "\t", "End Site");
    Deeper(tab);
    HeadLineWords(tab + "\t", "End Site", "End", "Site");
  }

  /** The offset line of an End Site block. */
  lemma EndSiteOffset(ff: FloatFormat, tab: string, v: Vec3)
    requires Indent(tab)
    requires ShowsExactly(ff, v.x) && ShowsExactly(ff, v.y) && ShowsExactly(ff, v.z)
    ensures Tokenize(tab + "\t\t" + OffsetText(ff, v)) == OffsetWords(ff, v)
  {
    assert "\t\t" == "\t" + "\t";
    Assoc(tab, "\t", "\t");
    Deeper(tab);
    OffsetLineSaid(ff, tab + "\t", v);
  }

  /** A brace line of an End Site block. */
  lemma EndSiteBrace(tab: string, brace: char)
    requires Indent(tab) && (brace == '{' || brace == '}')
    ensures Tokenize(tab + ['\t', brace]) == [[brace]]
  {
    assert ['\t', brace] == "\t" + [brace];
    Assoc(tab, "\t", [brace]);
    Deeper(tab);
    WordLine(tab + "\t", [brace]);
  }

  /** The End Site block of a leaf. */
  lemma EndSiteSaid(ff: FloatFormat, tab: string, v: Vec3)
    requires Indent(tab)
    requires ShowsExactly(ff, v.x) && ShowsExactly(ff, v.y) && ShowsExactly(ff, v.z)
    ensures TokenizeLines(EndSiteLines(ff, tab, v)) == EndSiteWords(ff, v)
  {
    TokenizeLinesFour(tab + "\tEnd Site", tab + "\t{", tab + "\t\t" + OffsetText(ff, v), tab + "\t}");
    EndSiteHead(tab);
    EndSiteBrace(tab, '{');
    EndSiteOffset(ff, tab, v);
    EndSiteBrace(tab, '}');
  }

  /** The first three lines of a block body. */
  lemma BodyHeadSaid(ff: FloatFormat, n: Node, tab: string)
    requires Indent(tab)
    requires ShowsExactly(ff, n.offset.x) && ShowsExactly(ff, n.offset.y) && ShowsExactly(ff, n.offset.z)
    ensures TokenizeLines([tab + "{", tab + "\t" + OffsetText(ff, n.offset), tab + "\t" + ChannelText(n.channels)])
         == [["{"], OffsetWords(ff, n.offset), ChannelWords(n.channels)]
  {
    TokenizeLinesThree(tab + "{", tab + "\t" + OffsetText(ff, n.offset), tab + "\t" + ChannelText(n.channels));
    WordLine(tab, "{");
    OffsetLineSaid(ff, tab, n.offset);
    ChannelLineSaid(tab, n.channels);
  }

  /** The lines of a block body, as four lines around what is inside. */
  lemma BodyShape(ff: FloatFormat, nodes: seq<Node>, c: nat, layer: nat, leaf: Vec3)
    requires ChildrenAfter(nodes) && c < |nodes|
    ensures var tab, n := Tabs(layer), nodes[c];
      BlockBody(ff, nodes, c, layer, leaf) ==
        [tab + "{", tab + "\t" + OffsetText(ff, n.offset), tab + "\t" + ChannelText(n.channels)] +
        (Inner(ff, nodes, c, layer, leaf) + [tab + "}"])
  {
  }

  /** Cutting the lines of a block body gives its words. */
  lemma {:induction false} BodySaid(ff: FloatFormat, nodes: seq<Node>, c: nat, layer: nat, leaf: Vec3)
    requires ChildrenAfter(nodes) && Readable(ff, nodes) && c < |nodes|
    requires ShowsExactly(ff, leaf.x) && ShowsExactly(ff, leaf.y) && ShowsExactly(ff, leaf.z)
    ensures TokenizeLines(BlockBody(ff, nodes, c, layer, leaf)) == BodyWords(ff, nodes, c, leaf)
    decreases |nodes| - c, |nodes[c].children| + 2
  {
    var tab, n := Tabs(layer), nodes[c];
    var head := [tab + "{", tab + "\t" + OffsetText(ff, n.offset), tab + "\t" + ChannelText(n.channels)];
    var mid := Inner(ff, nodes, c, layer, leaf);
    BodyShape(ff, nodes, c, layer, leaf);
    TokenizeLinesAppend(head, mid + [tab + "}"]);
    TokenizeLinesAppend(mid, [tab + "}"]);
    TabsWhite(layer);
    BodyHeadSaid(ff, n, tab);
    InnerSaid(ff, nodes, c, layer, leaf);
    TokenizeLinesOne(tab + "}");
    WordLine(tab, "}");
  }

  /** Cutting the lines inside a block gives their words. */
  lemma {:induction false} InnerSaid(ff: FloatFormat, nodes: seq<Node>, c: nat, layer: nat, leaf: Vec3)
    requires ChildrenAfter(nodes) && Readable(ff, nodes) && c < |nodes|
    requires ShowsExactly(ff, leaf.x) && ShowsExactly(ff, leaf.y) && ShowsExactly(ff, leaf.z)
    ensures TokenizeLines(Inner(ff, nodes, c, layer, leaf)) == InnerWords(ff, nodes, c, leaf)
    decreases |nodes| - c, |nodes[c].children| + 1
  {
    if nodes[c].children == [] {
      TabsWhite(layer);
      EndSiteSaid(ff, Tabs(layer), leaf);
    } else {
      ChildrenSaid(ff, nodes, c, 0, layer + 1);
    }
  }

  /** The head line of a block: a keyword and a name. */
  lemma HeadSaid(tab: string, line: string, head: string, name: string)
    requires Indent(tab) && IsToken(head) && IsToken(name) && line == head + " " + name
    ensures TokenizeLines([tab + line]) == [[head, name]]
  {
    TokenizeLinesOne(tab + line);
    HeadLineWords(tab, line, head, name);
  }

  /** Cutting the lines of a joint's block gives its words. */
  lemma {:induction false} JointSaid(ff: FloatFormat, nodes: seq<Node>, c: nat, layer: nat)
    requires ChildrenAfter(nodes) && Readable(ff, nodes) && c < |nodes|
    ensures TokenizeLines(JointLines(ff, nodes, c, layer)) == JointWords(ff, nodes, c)
    decreases |nodes| - c, |nodes[c].children| + 3
  {
    var head := Tabs(layer) + JointName(nodes[c].name);
    var body := BlockBody(ff, nodes, c, layer, Zero);
    assert JointLines(ff, nodes, c, layer) == [head] + body;
    TokenizeLinesAppend([head], body);
    TabsWhite(layer);
    HeadSaid(Tabs(layer), JointName(nodes[c].name), "JOINT", nodes[c].name);
    BodySaid(ff, nodes, c, layer, Zero);
  }

  /** Cutting the lines of the blocks of the children of a from the j-th on
      gives their words. */
  lemma {:induction false} ChildrenSaid(ff: FloatFormat, nodes: seq<Node>, a: nat, j: nat, layer: nat)
    requires ChildrenAfter(nodes) && Readable(ff, nodes) && a < |nodes| && j <= |nodes[a].children|
    ensures TokenizeLines(ChildLines(ff, nodes, a, j, layer)) == ChildWords(ff, nodes, a, j)
    decreases |nodes| - a, |nodes[a].children| - j
  {
    if j < |nodes[a].children| {
      var c := nodes[a].children[j];
      TokenizeLinesAppend(JointLines(ff, nodes, c, layer), ChildLines(ff, nodes, a, j + 1, layer));
      JointSaid(ff, nodes, c, layer);
      ChildrenSaid(ff, nodes, a, j + 1, layer);
    }
  }

  /** Cutting the lines of the root block gives its words. */
  lemma RootSaid(ff: FloatFormat, nodes: seq<Node>)
    requires ChildrenAfter(nodes) && Readable(ff, nodes) && |nodes| > 0
    ensures TokenizeLines(RootLines(ff, nodes, 0)) == RootWords(ff, nodes, 0)
  {
    var head := Tabs(0) + ("ROOT " + nodes[0].name);
    var body := BlockBody(ff, nodes, 0, 0, nodes[0].offset);
    assert RootLines(ff, nodes, 0) == [head] + body;
    TokenizeLinesAppend([head], body);
    TabsWhite(0);
    HeadSaid(Tabs(0), "ROOT " + nodes[0].name, "ROOT", nodes[0].name);
    BodySaid(ff, nodes, 0, 0, nodes[0].offset);
  }
  // ---------------------------------------------------------------------------
  // The motion block
  // ---------------------------------------------------------------------------

  /** The words of the first n frame lines. */
  function FrameWords(ff: FloatFormat, nodes: seq<Node>, n: nat): (r: seq<seq<string>>)
    ensures |r| == n
  {
    seq(n, f requires 0 <= f < n => FrameValues(ff, nodes, f, |nodes|))
  }

  /** The words of the motion block: header, frames and a blank line. */
  function MotionWords(ff: FloatFormat, s: State): seq<seq<string>> {
    [["MOTION"], ["Frames:", FormatInt(s.frameNum)], ["Frame", "Time:", ff.show(s.frameSpan)]]
    + FrameWords(ff, s.nodes, FrameTotal(s)) + [[]]
  }

  /** A word that can open a frame line: neither section keyword. */
  predicate Plain(t: string) {
    IsToken(t) && t != "HIERARCHY" && t != "MOTION"
  }

  /** Every value of frame f is written exactly. */
  predicate FrameShown(ff: FloatFormat, nodes: seq<Node>, f: int) {
    forall i, k :: 0 <= i < |nodes| && 0 <= k < |nodes[i].channels| ==>
      ShowsExactly(ff, ChannelValue(nodes[i], f, nodes[i].channels[k]))
  }

  /** Every value of the first n frames is written exactly. */
  predicate SamplesShown(ff: FloatFormat, nodes: seq<Node>, n: nat) {
    forall f :: 0 <= f < n ==> FrameShown(ff, nodes, f)
  }

  /** The words of a frame written exactly are plain words. */
  lemma {:induction false} FrameValuesPlain(ff: FloatFormat, nodes: seq<Node>, f: int, k: nat)
    requires k <= |nodes| && FrameShown(ff, nodes, f)
    ensures forall t :: 0 <= t < |FrameValues(ff, nodes, f, k)| ==> Plain(FrameValues(ff, nodes, f, k)[t])
  {
    if k > 0 {
      FrameValuesPlain(ff, nodes, f, k - 1);
      var a := FrameValues(ff, nodes, f, k - 1);
      var b := NodeValues(ff, nodes[k - 1], f);
      forall t | 0 <= t < |a + b|
        ensures Plain((a + b)[t])
      {
        if t >= |a| {
          assert (a + b)[t] == b[t - |a|];
        } else {
          assert (a + b)[t] == a[t];
        }
      }
    }
  }

  /** Frame lines read back as their values. */
  lemma FramesSaid(ff: FloatFormat, nodes: seq<Node>, n: nat)
    requires SamplesShown(ff, nodes, n)
    ensures TokenizeLines(seq(n, f requires 0 <= f < n => FrameLine(ff, nodes, f))) == FrameWords(ff, nodes, n)
  {
    var lines := seq(n, f requires 0 <= f < n => FrameLine(ff, nodes, f));
    forall f | 0 <= f < n
      ensures TokenizeLines(lines)[f] == FrameWords(ff, nodes, n)[f]
    {
      FrameValuesPlain(ff, nodes, f, |nodes|);
      FrameLineWords(ff, nodes, f);
    }
  }

  lemma MotionWordSaid()
    ensures Tokenize("MOTION") == ["MOTION"]
  {
    assert "" + "MOTION" == "MOTION";
    WordLine("", "MOTION");
  }

  lemma FramesHeadSaid(n: int)
    ensures Tokenize("Frames: " + FormatInt(n)) == ["Frames:", FormatInt(n)]
  {
    var line := "Frames:" + " " + FormatInt(n);
    assert "" + line == "Frames: " + FormatInt(n);
    HeadLineWords("", line, "Frames:", FormatInt(n));
  }

  lemma FrameTimeSaid(t: string)
    requires IsToken(t)
    ensures Tokenize("Frame Time: " + t) == ["Frame", "Time:", t]
  {
    var ts := ["Frame", "Time:", t];
    assert JoinSpaces(ts[2..]) == t;
    assert JoinSpaces(ts[1..]) == "Time:" + " " + t;
    assert JoinSpaces(ts) == "Frame" + " " + ("Time:" + " " + t);
    assert "" + JoinSpaces(["Frame", "Time:", t]) == "Frame Time: " + t;
    TokenizeJoined("", ["Frame", "Time:", t]);
  }

  /** The three header lines of the motion block read back as their words. */
  lemma MotionHeadSaid(ff: FloatFormat, s: State)
    requires ShowsExactly(ff, s.frameSpan)
    ensures TokenizeLines(["MOTION", "Frames: " + FormatInt(s.frameNum), "Frame Time: " + ff.show(s.frameSpan)])
         == [["MOTION"], ["Frames:", FormatInt(s.frameNum)], ["Frame", "Time:", ff.show(s.frameSpan)]]
  {
    TokenizeLinesThree("MOTION", "Frames: " + FormatInt(s.frameNum), "Frame Time: " + ff.show(s.frameSpan));
    MotionWordSaid();
    FramesHeadSaid(s.frameNum);
    FrameTimeSaid(ff.show(s.frameSpan));
  }

  /** Three pieces of lines cut one after the other. */
  lemma TokenizeLinesPieces(a: seq<string>, b: seq<string>, c: seq<string>, x: seq<seq<string>>, y: seq<seq<string>>, z: seq<seq<string>>)
    requires TokenizeLines(a) == x && TokenizeLines(b) == y && TokenizeLines(c) == z
    ensures TokenizeLines(a + b + c) == x + y + z
  {
    TokenizeLinesAppend(a + b, c);
    TokenizeLinesAppend(a, b);
  }

  /** WriteMotion's lines read back as the motion words. */
  lemma MotionSaid(ff: FloatFormat, s: State)
    requires ShowsExactly(ff, s.frameSpan) && SamplesShown(ff, s.nodes, FrameTotal(s))
    ensures TokenizeLines(MotionLines(ff, s)) == MotionWords(ff, s)
  {
    var head := ["MOTION", "Frames: " + FormatInt(s.frameNum), "Frame Time: " + ff.show(s.frameSpan)];
    var body := seq(FrameTotal(s), f requires 0 <= f < FrameTotal(s) => FrameLine(ff, s.nodes, f));
    var words := [["MOTION"], ["Frames:", FormatInt(s.frameNum)], ["Frame", "Time:", ff.show(s.frameSpan)]];
    var frames := FrameWords(ff, s.nodes, FrameTotal(s));
    assert TokenizeLines(head) == words by { MotionHeadSaid(ff, s); }
    assert TokenizeLines(body) == frames by { FramesSaid(ff, s.nodes, FrameTotal(s)); }
    assert TokenizeLines([""]) == [[]] by {
      TokenizeEmpty();
      TokenizeLinesOne("");
    }
    assert MotionLines(ff, s) == head + body + [""];
    assert MotionWords(ff, s) == words + frames + [[]];
    TokenizeLinesPieces(head, body, [""], words, frames, [[]]);
  }
}
