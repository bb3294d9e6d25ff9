/** BVHParser itself: the fields it updates, Load(string) and
    Load(StreamReader) with ParseHierarchy and ParseMotion, the lookups, and
    Save with WriteHierarchy, WriteJoint, GetStringChannel and WriteMotion.
    Each method is proved to do what the functions of LoadSpec and SaveSpec
    say of the fields it changes or the lines it writes. */
module Parser {
  import opened Options
  import opened Text
  import opened Skeleton
  import opened LoadSpec
  import opened LoadFacts
  import opened SaveSpec
  import opened SaveWords
  import opened ReloadMotion
  import opened LoadProps

  /** The words of one line, as the loop of Load(StreamReader) builds them:
      String.Split(' '), every piece trimmed in place, then the non-empty
      pieces collected in order. */
  method SplitLine(line: string) returns (words: seq<string>)
    ensures words == Tokenize(line)
  {
    var parts := Split(line);
    var a := new string[|parts|](k requires 0 <= k < |parts| => parts[k]);
    assert a[..] == parts;
    TrimAll(a);
    words := CollectWords(a, parts);
  }

  /** The second loop of the line split: the trimmed pieces that are not
      empty, in order. */
  method CollectWords(a: array<string>, ghost parts: seq<string>) returns (words: seq<string>)
    requires a[..] == Trimmed(parts, a.Length)
    ensures words == Clean(parts)
  {
    words := [];
    var i := 0;
    while i < a.Length
      invariant 0 <= i <= a.Length
      invariant words == Clean(parts[..i])
    {
      CleanSnoc(parts, i);
      assert a[i] == Trimmed(parts, a.Length)[i];
      if a[i] != "" {
        words := words + [a[i]];
      }
      i := i + 1;
    }
    assert parts[..a.Length] == parts;
  }

  /** The pieces with the first i trimmed. */
  function Trimmed(parts: seq<string>, i: nat): (r: seq<string>)
    ensures |r| == |parts|
  {
    seq(|parts|, k requires 0 <= k < |parts| => if k < i then Trim(parts[k]) else parts[k])
  }

  lemma TrimmedStep(parts: seq<string>, i: nat)
    requires i < |parts|
    ensures Trimmed(parts, i)[i := Trim(parts[i])] == Trimmed(parts, i + 1)
    ensures Trimmed(parts, i)[i] == parts[i]
  {
  }

  /** `words[i] = words[i].Trim()` for every piece, in place. */
  method TrimAll(a: array<string>)
    modifies a
    ensures a[..] == Trimmed(old(a[..]), a.Length)
  {
    ghost var parts := a[..];
    assert a[..] == Trimmed(parts, 0);
    var i := 0;
    while i < a.Length
      invariant 0 <= i <= a.Length
      invariant a[..] == Trimmed(parts, i)
    {
      TrimmedStep(parts, i);
      a[i] := Trim(a[i]);
      i := i + 1;
    }
  }

  /** GetStringChannel: the count, then the name of every channel followed
      by a space, from the switch over the six channels. */
  method GetStringChannel(cs: seq<Channel>) returns (buffer: string)
    ensures buffer == ChannelText(cs)
  {
    buffer := "CHANNELS " + FormatInt(|cs|) + " ";
    ghost var head := buffer;
    var i := 0;
    while i < |cs|
      invariant 0 <= i <= |cs|
      invariant buffer == head + Spaced(NamesOf(cs)[..i])
    {
      ghost var before := buffer;
      var word := ChannelWord(cs[i]);
      assert NamesOf(cs)[i] == ChannelName(cs[i]);
      buffer := buffer + word;
      WordWritten(NamesOf(cs), i, head, before, buffer);
      i := i + 1;
    }
    assert NamesOf(cs)[..|cs|] == NamesOf(cs);
  }

  /** The switch of GetStringChannel: the channel's name and a space. */
  method ChannelWord(c: Channel) returns (word: string)
    ensures word == ChannelName(c) + " "
  {
    match c {
      case Xposition => word := "Xposition ";
      case Yposition => word := "Yposition ";
      case Zposition => word := "Zposition ";
      case Xrotation => word := "Xrotation ";
      case Yrotation => word := "Yrotation ";
      case Zrotation => word := "Zrotation ";
    }
  }

  /** Spacing one more word adds it and a space. */
  lemma SpacedSnoc(ts: seq<string>, t: string)
    ensures Spaced(ts + [t]) == Spaced(ts) + (t + " ")
  {
    SpacedAppend(ts, [t]);
    assert [t][1..] == [];
  }

  /** Appending word i and a space to a buffer that spaces words 0 .. i - 1. */
  lemma WordWritten(names: seq<string>, i: nat, head: string, before: string, after: string)
    requires i < |names| && before == head + Spaced(names[..i])
    requires after == before + (names[i] + " ")
    ensures after == head + Spaced(names[..i + 1])
  {
    SpacedSnoc(names[..i], names[i]);
    assert names[..i + 1] == names[..i] + [names[i]];
    Assoc(head, Spaced(names[..i]), names[i] + " ");
  }

  /** The channel loop of WriteMotion writes channel ch of the joint as the
      next value of the frame line. */
  lemma ValueWritten(ff: FloatFormat, node: Node, frame: int, ch: nat, done: seq<string>, before: string, after: string)
    requires ch < |node.channels| && before == Spaced(done + NodeValues(ff, node, frame)[..ch])
    requires after == before + ff.show(ChannelValue(node, frame, node.channels[ch])) + " "
    ensures after == Spaced(done + NodeValues(ff, node, frame)[..ch + 1])
  {
    var vs := NodeValues(ff, node, frame);
    SpacedSnoc(done + vs[..ch], vs[ch]);
    Snoc(done, vs, ch);
    Assoc(before, vs[ch], " ");
  }

  /** The block WriteHierarchy writes for the root r, line by line. */
  lemma RootBlock(ff: FloatFormat, nodes: seq<Node>, r: nat, block: seq<string>)
    requires ChildrenAfter(nodes) && r < |nodes|
    requires var node := nodes[r];
      block == ["ROOT " + node.name, "{", "\t" + OffsetText(ff, node.offset), "\t" + ChannelText(node.channels)]
             + Inner(ff, nodes, r, 0, node.offset) + ["}"]
    ensures block == RootLines(ff, nodes, r)
  {
    var node := nodes[r];
    var tab := Tabs(0);
    assert tab == "";
    assert tab + ("ROOT " + node.name) == "ROOT " + node.name;
    assert tab + "{" == "{";
    assert tab + "\t" + OffsetText(ff, node.offset) == "\t" + OffsetText(ff, node.offset);
    assert tab + "\t" + ChannelText(node.channels) == "\t" + ChannelText(node.channels);
    assert tab + "}" == "}";
    assert [tab + ("ROOT " + node.name), tab + "{", tab + "\t" + OffsetText(ff, node.offset), tab + "\t" + ChannelText(node.channels)]
        == ["ROOT " + node.name, "{", "\t" + OffsetText(ff, node.offset), "\t" + ChannelText(node.channels)];
    assert [tab + "}"] == ["}"];
    BlockShape(ff, nodes, r, 0, "ROOT " + node.name, node.offset, block);
  }

  /** The End Site of a root without children, written at depth 0. */
  lemma RootLeaf(ff: FloatFormat, v: Vec3, inner: seq<string>)
    requires inner == ["\tEnd Site", "\t{", "\t\t" + OffsetText(ff, v), "\t}"]
    ensures inner == EndSiteLines(ff, Tabs(0), v)
  {
    var tab := Tabs(0);
    assert tab == "";
    assert tab + "\tEnd Site" == "\tEnd Site";
    assert tab + "\t{" == "\t{";
    assert tab + "\t\t" + OffsetText(ff, v) == "\t\t" + OffsetText(ff, v);
    assert tab + "\t}" == "\t}";
  }

  /** Frame lines 0 .. n, one more than frame lines 0 .. n - 1. */
  lemma FramesSnoc(ff: FloatFormat, nodes: seq<Node>, n: nat)
    ensures seq(n + 1, f requires 0 <= f < n + 1 => FrameLine(ff, nodes, f))
         == seq(n, f requires 0 <= f < n => FrameLine(ff, nodes, f)) + [FrameLine(ff, nodes, n)]
  {
  }

  lemma Snoc<T>(done: seq<T>, vs: seq<T>, ch: nat)
    requires ch < |vs|
    ensures done + vs[..ch + 1] == done + vs[..ch] + [vs[ch]]
  {
    assert vs[..ch + 1] == vs[..ch] + [vs[ch]];
  }

  /** The four lines that open a block, what is inside, the closing line. */
  lemma Block<T>(x: T, a: T, b: T, c: T, inner: seq<T>, d: T)
    ensures [x] + ([a, b, c] + inner + [d]) == [x, a, b, c] + inner + [d]
  {
  }

  /** A block as WriteHierarchy and WriteJoint write it, line by line. */
  lemma BlockShape(ff: FloatFormat, nodes: seq<Node>, a: nat, layer: nat, head: string, leaf: Vec3, lines: seq<string>)
    requires ChildrenAfter(nodes) && a < |nodes|
    requires var tab := Tabs(layer);
      lines == [tab + head, tab + "{", tab + "\t" + OffsetText(ff, nodes[a].offset), tab + "\t" + ChannelText(nodes[a].channels)]
               + Inner(ff, nodes, a, layer, leaf) + [tab + "}"]
    ensures lines == BlockLines(ff, nodes, a, layer, head, leaf)
  {
    var tab := Tabs(layer);
    Block(tab + head, tab + "{", tab + "\t" + OffsetText(ff, nodes[a].offset), tab + "\t" + ChannelText(nodes[a].channels),
          Inner(ff, nodes, a, layer, leaf), tab + "}");
  }

  lemma LineAt(tl: seq<seq<string>>, i: nat)
    requires i < |tl|
    ensures tl[i..] != [] && tl[i..][0] == tl[i] && tl[i..][1..] == tl[i + 1..]
  {
  }

  /** The three ReadLine calls after End Site, each reading a line if one is left. */
  lemma EndSiteAt(tl: seq<seq<string>>, i: nat, j: nat)
    requires i < |tl| && j == (if i + 4 <= |tl| then i + 4 else |tl|)
    ensures AfterEndSite(tl[i..]) == tl[j..]
  {
  }

  /** Once adding a name has thrown, the rest of the list adds nothing. */
  lemma {:induction false} AddNamesStuck(dic: map<string, nat>, nodes: seq<Node>, k: nat, m: nat)
    requires k <= m <= |nodes|
    requires forall n :: n in dic ==> dic[n] < |nodes|
    requires !AddNames(dic, nodes, k).1
    ensures AddNames(dic, nodes, m) == AddNames(dic, nodes, k)
    decreases m
  {
    if k < m {
      AddNamesStuck(dic, nodes, k, m - 1);
    }
  }

  /** One more name added after k names went in. */
  lemma AddNamesNext(dic: map<string, nat>, nodes: seq<Node>, k: nat)
    requires k < |nodes|
    requires forall n :: n in dic ==> dic[n] < |nodes|
    ensures var (d, ok) := AddNames(dic, nodes, k);
      ok ==> (AddNames(dic, nodes, k + 1) ==
        (if nodes[k].name in d then (d, false) else (d[nodes[k].name := k], true)))
  {
  }

  class BVHParser {
    var mode: Mode
    var root: Option<nat>
    var target: Option<nat>
    var nodeOrder: seq<Node>
    var nodeDic: map<string, nat>
    var isFrameNum: bool
    var isFrameSpan: bool
    var motionNum: Int32
    var isEnable: bool
    var frameNum: Int32
    var frameSpan: real

    /** The fields as one value. */
    function Snapshot(): State
      reads this
    {
      State(mode, root, target, nodeOrder, nodeDic, isFrameNum, isFrameSpan,
            motionNum, frameNum, frameSpan, isEnable)
    }

    /** What holds of the fields between calls: the joint list is a linked
        tree in pre-order with the cursors on it, as Load builds it, and every
        name in the index leads to a joint of that name. */
    ghost predicate Inv()
      reads this
    {
      Built(Snapshot()) && ChildrenAfter(nodeOrder) && Indexed(Snapshot())
    }

    /** BVHParser(): unknown mode, no joints, not enabled. */
    constructor()
      ensures Snapshot() == State(Unknown, None, None, [], map[], false, false, 0, 0, 0.0, false)
      ensures Inv()
    {
      mode := Unknown;
      root := None;
      target := None;
      nodeOrder := [];
      nodeDic := map[];
      isFrameNum := false;
      isFrameSpan := false;
      motionNum := 0;
      isEnable := false;
      frameNum := 0;
      frameSpan := 0.0;
      new;
      ResetIsBuilt(Snapshot());
    }

    /** GetNode: the joint the name index holds for name, if any; a joint
        found has that name, and none is found only for a name not indexed. */
    method GetNode(name: string) returns (r: Option<nat>)
      requires Inv()
      ensures r == if name in nodeDic then Some(nodeDic[name]) else None
      ensures r.Some? ==> r.value < |nodeOrder| && nodeOrder[r.value].name == name
    {
      r := if name in nodeDic then Some(nodeDic[name]) else None;
    }

    /** GetNodeList: the joints in declaration order, which is a pre-order
        of the tree their links describe. */
    method GetNodeList() returns (r: seq<Node>)
      requires Inv()
      ensures r == nodeOrder && Linked(r) && PreOrder(r)
    {
      r := nodeOrder;
    }

    // -------------------------------------------------------------------------
    // Load
    // -------------------------------------------------------------------------

    /** Load(string): every field Load reads with starts over (IsEnable,
        FrameNum and FrameSpan are kept), then the lines are read. */
    method Load(ff: FloatFormat, lines: seq<string>) returns (st: Status)
      requires Inv()
      modifies this
      ensures Snapshot() == LoadSpec.Load(ff, old(Snapshot()), lines).0
      ensures st == LoadSpec.Load(ff, old(Snapshot()), lines).1
      ensures Inv()
    {
      mode := Unknown;
      root := None;
      target := None;
      isFrameNum := false;
      isFrameSpan := false;
      motionNum := 0;
      nodeOrder := [];
      nodeDic := map[];
      assert Snapshot() == Reset(old(Snapshot()));
      ResetIsBuilt(old(Snapshot()));
      st := LoadStream(ff, lines);
    }

    /** Load(StreamReader): the line loop, then the name index. A pass that
        returns false or throws ends the load with the fields as they are.
        Its only caller, Load(string), has just cleared the name index. */
    method LoadStream(ff: FloatFormat, lines: seq<string>) returns (st: Status)
      requires Inv() && nodeDic == map[]
      modifies this
      ensures Snapshot() == Run(ff, old(Snapshot()), TokenizeLines(lines)).0
      ensures st == Run(ff, old(Snapshot()), TokenizeLines(lines)).1
      ensures Inv()
    {
      ghost var tl := TokenizeLines(lines);
      ghost var goal := Run(ff, Snapshot(), tl);
      TokenizeLinesWords(lines);
      RunKeepsBuilt(ff, Snapshot(), tl);
      RunIndexed(ff, Snapshot(), tl);
      LinkedChildrenAfter(goal.0.nodes);
      var i := 0;
      while i < |lines|
        invariant 0 <= i <= |lines|
        invariant Valid(Snapshot())
        invariant Run(ff, Snapshot(), tl[i..]) == goal
        decreases |lines| - i
      {
        var words := SplitLine(lines[i]);
        var next, status, stop := Pass(ff, tl, |lines|, i, words);
        if stop {
          return status;
        }
        i := next;
      }
      assert tl[i..] == [];
      st := BuildIndex();
    }

    /** One pass of the line loop of Load(StreamReader) on line i: a blank
        line is skipped, HIERARCHY and MOTION set the mode, End Site skips
        the three lines after it, and other lines go to ParseHierarchy or
        ParseMotion by mode. stop is the `return` after a parse that gave
        false or threw; j is the line the loop reads next. */
    method Pass(ff: FloatFormat, ghost tl: seq<seq<string>>, count: nat, i: nat, words: seq<string>)
      returns (j: nat, st: Status, stop: bool)
      requires Valid(Snapshot()) && |tl| == count && i < count && words == tl[i]
      modifies this
      ensures Valid(Snapshot())
      ensures stop ==> Step(ff, old(Snapshot()), tl[i..]) == Stop(Snapshot(), st)
      ensures !stop ==> i < j <= count && Step(ff, old(Snapshot()), tl[i..]) == Continue(Snapshot(), tl[j..])
    {
      LineAt(tl, i);
      j, st, stop := i + 1, Done, false;
      if |words| == 0 {
      } else if words[0] == "HIERARCHY" {
        mode := Hierarchy;
      } else if words[0] == "MOTION" {
        mode := Motion;
      } else if mode == Hierarchy {
        j, st, stop := HierarchyPass(ff, tl, count, i, words);
      } else if mode == Motion {
        st, stop := MotionPass(ff, tl, i, words);
      }
    }

    /** A pass in MOTION mode on a line whose first word is not a mode word:
        the line goes to ParseMotion. */
    method MotionPass(ff: FloatFormat, ghost tl: seq<seq<string>>, i: nat, words: seq<string>) returns (st: Status, stop: bool)
      requires Valid(Snapshot()) && i < |tl| && mode == Motion && words == tl[i] && words != []
      requires words[0] != "HIERARCHY" && words[0] != "MOTION"
      modifies this
      ensures Valid(Snapshot())
      ensures stop ==> Step(ff, old(Snapshot()), tl[i..]) == Stop(Snapshot(), st)
      ensures !stop ==> Step(ff, old(Snapshot()), tl[i..]) == Continue(Snapshot(), tl[i + 1..])
    {
      LineAt(tl, i);
      st := ParseMotion(ff, words);
      stop := st != Done;
    }

    /** A pass in HIERARCHY mode on a line whose first word is not a mode
        word: End Site skips three more lines (an End alone is the index
        exception of words[1]); other lines go to ParseHierarchy. */
    method HierarchyPass(ff: FloatFormat, ghost tl: seq<seq<string>>, count: nat, i: nat, words: seq<string>)
      returns (j: nat, st: Status, stop: bool)
      requires Valid(Snapshot()) && |tl| == count && i < count && mode == Hierarchy && words == tl[i] && words != []
      requires words[0] != "HIERARCHY" && words[0] != "MOTION"
      modifies this
      ensures Valid(Snapshot())
      ensures stop ==> Step(ff, old(Snapshot()), tl[i..]) == Stop(Snapshot(), st)
      ensures !stop ==> i < j <= count && Step(ff, old(Snapshot()), tl[i..]) == Continue(Snapshot(), tl[j..])
    {
      LineAt(tl, i);
      j, st, stop := i + 1, Done, false;
      if words[0] == "End" && |words| < 2 {
        st, stop := Threw, true;
      } else if words[0] == "End" && words[1] == "Site" {
        if j < count { j := j + 1; }
        if j < count { j := j + 1; }
        if j < count { j := j + 1; }
        EndSiteAt(tl, i, j);
      } else {
        st := ParseHierarchy(ff, words);
        stop := st != Done;
      }
    }

    /** The end of Load(StreamReader): every joint's name added to the index
        in list order, Dictionary.Add throwing on a name already there; then
        IsEnable is set. */
    method BuildIndex() returns (st: Status)
      requires Valid(Snapshot())
      modifies this
      ensures Snapshot() == Finish(old(Snapshot())).0
      ensures st == Finish(old(Snapshot())).1
    {
      ghost var s0 := Snapshot();
      var k := 0;
      while k < |nodeOrder|
        invariant 0 <= k <= |nodeOrder|
        invariant Snapshot() == s0.(dic := nodeDic)
        invariant AddNames(s0.dic, s0.nodes, k) == (nodeDic, true)
      {
        var name := nodeOrder[k].name;
        AddNamesNext(s0.dic, s0.nodes, k);
        if name in nodeDic {
          assert Finish(s0) == (s0.(dic := nodeDic), Threw) by {
            AddNamesStuck(s0.dic, s0.nodes, k + 1, |s0.nodes|);
          }
          return Threw;
        }
        nodeDic := nodeDic[name := k];
        k := k + 1;
      }
      assert Finish(s0) == (s0.(dic := nodeDic, isEnable := true), Done);
      isEnable := true;
      st := Done;
    }

    /** ParseHierarchy: one line of the HIERARCHY section, by its first word.
        Failed is its `return false` (a channel name it does not know); Threw
        an index out of range, a null target or a malformed number. */
    method ParseHierarchy(ff: FloatFormat, words: seq<string>) returns (st: Status)
      requires Valid(Snapshot()) && |words| >= 1
      modifies this
      ensures Snapshot() == ParseHierarchySpec(ff, old(Snapshot()), words).0
      ensures st == ParseHierarchySpec(ff, old(Snapshot()), words).1
    {
      st := Done;
      if words[0] == "ROOT" {
        if |words| < 2 {
          return Threw;
        }
        var n := |nodeOrder|;
        nodeOrder := nodeOrder + [NewNode(None, words[1])];
        root := Some(n);
        target := Some(n);
      } else if words[0] == "}" {
        if target.None? {
          return Threw;
        }
        target := nodeOrder[target.value].parent;
      } else if words[0] == "OFFSET" {
        if |words| < 4 {
          return Threw;
        }
        var x, y, z := ff.parse(words[1]), ff.parse(words[2]), ff.parse(words[3]);
        if x.None? || y.None? || z.None? || target.None? {
          return Threw;
        }
        var t := target.value;
        nodeOrder := nodeOrder[t := nodeOrder[t].(offset := Vec3(x.value, y.value, z.value))];
      } else if words[0] == "CHANNELS" {
        st := ParseChannels(words);
      } else if words[0] == "JOINT" {
        if |words| < 2 || target.None? {
          return Threw;
        }
        var t, n := target.value, |nodeOrder|;
        nodeOrder := nodeOrder[t := nodeOrder[t].(children := nodeOrder[t].children + [n])];
        nodeOrder := nodeOrder + [NewNode(Some(t), words[1])];
        target := Some(n);
      }
    }

    /** The CHANNELS case: the count, then one channel per word from the
        third on, each appended to the target's list as it is read. */
    method ParseChannels(words: seq<string>) returns (st: Status)
      requires Valid(Snapshot())
      modifies this
      ensures Snapshot() == Channels(old(Snapshot()), words).0
      ensures st == Channels(old(Snapshot()), words).1
    {
      if |words| < 2 {
        return Threw;
      }
      var chNum := ParseInt(words[1]);
      if chNum.None? {
        return Threw;
      }
      var n: int := chNum.value;
      var i := 0;
      while i < n
        invariant 0 <= i && (n >= 0 ==> i <= n)
        invariant Valid(Snapshot())
        invariant AddChannels(Snapshot(), words, i, n) == AddChannels(old(Snapshot()), words, 0, n)
        decreases n - i
      {
        if |words| <= i + 2 {
          return Threw;
        }
        var channel := ChannelFromName(words[i + 2]);
        if channel.None? {
          return Failed;
        }
        if target.None? {
          return Threw;
        }
        var t := target.value;
        nodeOrder := nodeOrder[t := nodeOrder[t].(channels := nodeOrder[t].channels + [channel.value])];
        i := i + 1;
      }
      st := Done;
    }

    /** ParseMotion: a header line until both Frames and Frame Time are set,
        then a sample line. It never returns false; a missing word or a
        malformed number throws. */
    method ParseMotion(ff: FloatFormat, words: seq<string>) returns (st: Status)
      requires Valid(Snapshot()) && |words| >= 1
      modifies this
      ensures Snapshot() == ParseMotionSpec(ff, old(Snapshot()), words).0
      ensures st == ParseMotionSpec(ff, old(Snapshot()), words).1
    {
      if !isFrameNum || !isFrameSpan {
        st := ParseHeader(ff, words);
      } else {
        st := ParseSample(ff, words);
      }
    }

    /** The header patterns of ParseMotion, in the order it tests them. */
    method ParseHeader(ff: FloatFormat, words: seq<string>) returns (st: Status)
      requires Valid(Snapshot()) && |words| >= 1
      modifies this
      ensures Snapshot() == Header(ff, old(Snapshot()), words).0
      ensures st == Header(ff, old(Snapshot()), words).1
    {
      st := Done;
      if words[0] == "Frames:" {
        st := ReadFrameNum(words, 1);
      } else if words[0] == "Frames" && |words| < 2 {
        st := Threw;
      } else if words[0] == "Frames" && words[1] == ":" {
        st := ReadFrameNum(words, 2);
      } else if words[0] == "Frame" && |words| < 2 {
        st := Threw;
      } else if words[0] == "Frame" && words[1] == "Time:" {
        st := ReadFrameSpan(ff, words, 2);
      } else if words[0] == "Frame" && words[1] == "Time" && |words| < 3 {
        st := Threw;
      } else if words[0] == "Frame" && words[1] == "Time" && words[2] == ":" {
        st := ReadFrameSpan(ff, words, 3);
      }
    }

    /** FrameNum = int.Parse(words[k]); isFrameNum = true. */
    method ReadFrameNum(words: seq<string>, k: nat) returns (st: Status)
      requires Valid(Snapshot())
      modifies this
      ensures Snapshot() == FrameCount(old(Snapshot()), words, k).0
      ensures st == FrameCount(old(Snapshot()), words, k).1
    {
      if |words| <= k {
        return Threw;
      }
      var n := ParseInt(words[k]);
      if n.None? {
        return Threw;
      }
      frameNum := n.value;
      isFrameNum := true;
      st := Done;
    }

    /** FrameSpan = float.Parse(words[k]); isFrameSpan = true. */
    method ReadFrameSpan(ff: FloatFormat, words: seq<string>, k: nat) returns (st: Status)
      requires Valid(Snapshot())
      modifies this
      ensures Snapshot() == FrameTime(ff, old(Snapshot()), words, k).0
      ensures st == FrameTime(ff, old(Snapshot()), words, k).1
    {
      if |words| <= k {
        return Threw;
      }
      var v := ff.parse(words[k]);
      if v.None? {
        return Threw;
      }
      frameSpan := v.value;
      isFrameSpan := true;
      st := Done;
    }

    /** A sample line: for every joint in list order, its channel loop from
        the running wordIndex, then its sample stored at frame motionNum;
        then motionNum++. */
    method ParseSample(ff: FloatFormat, words: seq<string>) returns (st: Status)
      modifies this
      ensures Snapshot() == old(Snapshot()).(nodes := FillFrom(ff, old(nodeOrder), 0, words, 0, old(motionNum)).0,
                                             motionNum := if st == Done then Inc32(old(motionNum)) else old(motionNum))
      ensures st == (if FillFrom(ff, old(nodeOrder), 0, words, 0, old(motionNum)).1 then Done else Threw)
    {
      var wordIndex := 0;
      var i := 0;
      while i < |nodeOrder|
        invariant 0 <= i <= |nodeOrder|
        invariant Snapshot() == old(Snapshot()).(nodes := nodeOrder)
        invariant FillFrom(ff, nodeOrder, i, words, wordIndex, motionNum) == FillFrom(ff, old(nodeOrder), 0, words, 0, motionNum)
      {
        var node := nodeOrder[i];
        var pos, rot, next, ok := ReadJoint(ff, node.channels, words, wordIndex);
        if !ok {
          return Threw;
        }
        var stored := node.SetMotionPos(motionNum, pos).SetMotionRot(motionNum, rot);
        FillStep(ff, nodeOrder, i, words, wordIndex, motionNum, pos, rot, stored, next);
        nodeOrder := nodeOrder[i := stored];
        wordIndex := next;
        i := i + 1;
      }
      motionNum := Inc32(motionNum);
      st := Done;
    }

    // -------------------------------------------------------------------------
    // Save
    // -------------------------------------------------------------------------

    /** Save: the hierarchy, then the motion; ok is false when WriteHierarchy
        threw on a parser without a root, after its first line. */
    method Save(ff: FloatFormat) returns (lines: seq<string>, ok: bool)
      requires Inv()
      ensures (lines, ok) == SaveLines(ff, Snapshot())
    {
      lines, ok := WriteHierarchy(ff);
      if ok {
        var motion := WriteMotion(ff);
        lines := lines + motion;
      }
    }

    /** WriteHierarchy(wr, _root): the root block at depth 0, whose End Site,
        when the root has no children, repeats the root's own offset. */
    method WriteHierarchy(ff: FloatFormat) returns (lines: seq<string>, ok: bool)
      requires Inv()
      ensures (lines, ok) == HierarchyLines(ff, Snapshot())
    {
      lines := ["HIERARCHY"];
      if root.None? {
        return lines, false;
      }
      var r := root.value;
      var node := nodeOrder[r];
      var channels := GetStringChannel(node.channels);
      var block := ["ROOT " + node.name, "{", "\t" + OffsetText(ff, node.offset), "\t" + channels];
      var inner;
      if |node.children| == 0 {
        inner := ["\tEnd Site", "\t{", "\t\t" + OffsetText(ff, node.offset), "\t}"];
        RootLeaf(ff, node.offset, inner);
      } else {
        inner := WriteChildren(ff, r, 1);
      }
      block := block + inner + ["}"];
      RootBlock(ff, nodeOrder, r, block);
      lines := lines + block;
      ok := true;
    }

    /** WriteJoint(wr, node, layer): the tab string built one tab per layer,
        the joint's block, and an End Site of 0 0 0 for a joint without
        children. */
    method WriteJoint(ff: FloatFormat, a: nat, layer: nat) returns (lines: seq<string>)
      requires Inv() && a < |nodeOrder|
      ensures lines == JointLines(ff, nodeOrder, a, layer)
      decreases |nodeOrder| - a, 1
    {
      var tab := MakeTab(layer);
      var node := nodeOrder[a];
      var channels := GetStringChannel(node.channels);
      lines := [tab + JointName(node.name), tab + "{", tab + "\t" + OffsetText(ff, node.offset), tab + "\t" + channels];
      var inner;
      if |node.children| == 0 {
        inner := [tab + "\tEnd Site", tab + "\t{", tab + "\t\t" + OffsetText(ff, Zero), tab + "\t}"];
        assert inner == EndSiteLines(ff, tab, Zero);
      } else {
        inner := WriteChildren(ff, a, layer + 1);
      }
      lines := lines + inner + [tab + "}"];
      BlockShape(ff, nodeOrder, a, layer, JointName(node.name), Zero, lines);
    }

    /** The foreach over the children of joint a, each written at depth layer. */
    method WriteChildren(ff: FloatFormat, a: nat, layer: nat) returns (lines: seq<string>)
      requires Inv() && a < |nodeOrder|
      ensures lines == ChildLines(ff, nodeOrder, a, 0, layer)
      decreases |nodeOrder| - a, 0
    {
      var children := nodeOrder[a].children;
      lines := [];
      var j := 0;
      while j < |children|
        invariant 0 <= j <= |children|
        invariant lines + ChildLines(ff, nodeOrder, a, j, layer) == ChildLines(ff, nodeOrder, a, 0, layer)
      {
        var joint := WriteJoint(ff, children[j], layer);
        Assoc(lines, joint, ChildLines(ff, nodeOrder, a, j + 1, layer));
        lines := lines + joint;
        j := j + 1;
      }
      assert lines + [] == lines;
    }

    /** WriteMotion: the header, one line per frame from 0 while below
        FrameNum, each the values of every joint's channels in list order,
        then an empty line. */
    method WriteMotion(ff: FloatFormat) returns (lines: seq<string>)
      ensures lines == MotionLines(ff, Snapshot())
    {
      lines := ["MOTION", "Frames: " + FormatInt(frameNum), "Frame Time: " + ff.show(frameSpan)];
      ghost var head := lines;
      ghost var nodes := nodeOrder;
      var frame := 0;
      while frame < frameNum
        invariant 0 <= frame <= FrameTotal(Snapshot())
        invariant lines == head + seq(frame, f requires 0 <= f < frame => FrameLine(ff, nodes, f))
      {
        FramesSnoc(ff, nodes, frame);
        var buffer := WriteFrame(ff, frame);
        Assoc(head, seq(frame, f requires 0 <= f < frame => FrameLine(ff, nodes, f)), [buffer]);
        lines := lines + [buffer];
        frame := frame + 1;
      }
      lines := lines + [""];
    }

    /** One pass of the frame loop of WriteMotion: for every joint in list
        order and every channel of it, the component the channel names and a
        space. */
    method WriteFrame(ff: FloatFormat, frame: int) returns (buffer: string)
      ensures buffer == FrameLine(ff, nodeOrder, frame)
    {
      buffer := "";
      var i := 0;
      while i < |nodeOrder|
        invariant 0 <= i <= |nodeOrder|
        invariant buffer == Spaced(FrameValues(ff, nodeOrder, frame, i))
      {
        buffer := WriteNode(ff, nodeOrder[i], frame, FrameValues(ff, nodeOrder, frame, i), buffer);
        i := i + 1;
      }
    }
  }

  /** The channel loop of WriteMotion for one joint: its values at the frame,
      in channel order, each followed by a space. */
  method WriteNode(ff: FloatFormat, node: Node, frame: int, ghost done: seq<string>, start: string)
    returns (buffer: string)
    requires start == Spaced(done)
    ensures buffer == Spaced(done + NodeValues(ff, node, frame))
  {
    buffer := start;
    assert done + NodeValues(ff, node, frame)[..0] == done;
    var ch := 0;
    while ch < |node.channels|
      invariant 0 <= ch <= |node.channels|
      invariant buffer == Spaced(done + NodeValues(ff, node, frame)[..ch])
    {
      ghost var before := buffer;
      var value := ValueText(ff, node, frame, node.channels[ch]);
      buffer := buffer + value + " ";
      ValueWritten(ff, node, frame, ch, done, before, buffer);
      ch := ch + 1;
    }
    assert NodeValues(ff, node, frame)[..|node.channels|] == NodeValues(ff, node, frame);
  }

  /** The switch of WriteMotion: the component of the frame's position or
      rotation that the channel names, as float.ToString writes it. */
  method ValueText(ff: FloatFormat, node: Node, frame: int, c: Channel) returns (text: string)
    ensures text == ff.show(ChannelValue(node, frame, c))
  {
    var pos := node.GetMotionPos(frame);
    var rot := node.GetMotionRot(frame);
    match c {
      case Xposition => text := ff.show(pos.x);
      case Yposition => text := ff.show(pos.y);
      case Zposition => text := ff.show(pos.z);
      case Xrotation => text := ff.show(rot.x);
      case Yrotation => text := ff.show(rot.y);
      case Zrotation => text := ff.show(rot.z);
    }
  }

  /** The loop at the head of WriteJoint: one tab per layer. */
  method MakeTab(layer: nat) returns (tab: string)
    ensures tab == Tabs(layer)
  {
    tab := "";
    var i := 0;
    while i < layer
      invariant 0 <= i <= layer && tab == Tabs(i)
    {
      tab := tab + "\t";
      i := i + 1;
    }
  }

  /** The channel loop of ParseMotion for one joint: each channel reads the
      word at the running wordIndex into the component it names; a missing
      word or one float.Parse rejects throws. */
  method ReadJoint(ff: FloatFormat, chans: seq<Channel>, words: seq<string>, at: nat)
    returns (pos: Vec3, rot: Vec3, wordIndex: nat, ok: bool)
    ensures ReadSample(ff, chans, words, at, 0, Zero, Zero) == if ok then Some((pos, rot)) else None
    ensures ok ==> wordIndex == at + |chans|
  {
    pos, rot := Zero, Zero;
    wordIndex := at;
    var ch := 0;
    while ch < |chans|
      invariant 0 <= ch <= |chans| && wordIndex == at + ch
      invariant ReadSample(ff, chans, words, at, ch, pos, rot) == ReadSample(ff, chans, words, at, 0, Zero, Zero)
    {
      if |words| <= wordIndex {
        return pos, rot, wordIndex, false;
      }
      var value := ff.parse(words[wordIndex]);
      if value.None? {
        return pos, rot, wordIndex, false;
      }
      var c := chans[ch];
      if c.IsPosition() {
        pos := pos.With(c.Axis(), value.value);
      } else {
        rot := rot.With(c.Axis(), value.value);
      }
      wordIndex := wordIndex + 1;
      ch := ch + 1;
    }
    ok := true;
  }
}
