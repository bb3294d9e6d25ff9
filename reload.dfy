/** The line loop of Load(StreamReader) on the kinds of line that Save writes:
    what each of them does to the parser, one line at a time. */
module Reload {
  import opened Options
  import opened Text
  import opened Skeleton
  import opened LoadSpec
  import opened SaveSpec
  import opened SaveWords

  /** The line loop alone, without the name index built after it: the state
      the lines leave, or the pass that returned. */
  function Walk(ff: FloatFormat, s: State, lines: seq<seq<string>>): (r: Next)
    requires Valid(s)
    ensures Valid(r.state)
    ensures r.Continue? ==> r.rest == []
    decreases |lines|
  {
    if lines == [] then Continue(s, [])
    else
      match Step(ff, s, lines)
      case Continue(s', rest) => Walk(ff, s', rest)
      case Stop(s', st) => Stop(s', st)
  }

  /** Reading the word lines `words` from s leaves the parser in t, whatever
      lines come after them. */
  ghost predicate Reads(ff: FloatFormat, s: State, words: seq<seq<string>>, t: State) {
    Valid(s) && Valid(t) &&
    forall rest {:trigger words + rest} :: Walk(ff, s, words + rest) == Walk(ff, t, rest)
  }

  /** Lines read to their end leave the loop running in the state they lead to. */
  lemma ReadsAll(ff: FloatFormat, s: State, words: seq<seq<string>>, t: State)
    requires Reads(ff, s, words, t)
    ensures Walk(ff, s, words) == Continue(t, [])
  {
    assert words + [] == words;
  }

  /** Nothing read changes nothing. */
  lemma ReadsNothing(ff: FloatFormat, s: State)
    requires Valid(s)
    ensures Reads(ff, s, [], s)
  {
    forall rest
      ensures Walk(ff, s, [] + rest) == Walk(ff, s, rest)
    {
      assert [] + rest == rest;
    }
  }

  /** Reading one piece and then the next. */
  lemma ThenReads(ff: FloatFormat, s: State, x: seq<seq<string>>, t: State, y: seq<seq<string>>, u: State)
    requires Reads(ff, s, x, t) && Reads(ff, t, y, u)
    ensures Reads(ff, s, x + y, u)
  {
    forall rest
      ensures Walk(ff, s, (x + y) + rest) == Walk(ff, u, rest)
    {
      Assoc(x, y, rest);
      assert Walk(ff, s, x + (y + rest)) == Walk(ff, t, y + rest);
    }
  }


  /** What is read from leaves a state whose references are in range. */
  lemma ReadsValid(ff: FloatFormat, s: State, words: seq<seq<string>>, t: State)
    requires Reads(ff, s, words, t)
    ensures Valid(t)
  {
  }

  /** Reading line j of l and then the lines after it reads l from j on. */
  lemma ThenReadsFrom(ff: FloatFormat, s: State, l: seq<seq<string>>, j: nat, t: State, u: State)
    requires j < |l| && Reads(ff, s, [l[j]], t) && Reads(ff, t, l[j + 1..], u)
    ensures Reads(ff, s, l[j..], u)
  {
    assert l[j..] == [l[j]] + l[j + 1..];
    ThenReads(ff, s, [l[j]], t, l[j + 1..], u);
  }

  /** Load(StreamReader) is the line loop and then, if no pass returned, the
      name index. */
  lemma {:induction false} RunWalk(ff: FloatFormat, s: State, lines: seq<seq<string>>)
    requires Valid(s)
    ensures Run(ff, s, lines) == match Walk(ff, s, lines)
      case Continue(t, _) => Finish(t)
      case Stop(t, st) => (t, st)
    decreases |lines|
  {
    if lines != [] {
      match Step(ff, s, lines)
      case Continue(s', rest) => RunWalk(ff, s', rest);
      case Stop(_, _) =>
    }
  }

  /** The loop past a first line w that leaves t behind, whatever follows. */
  lemma Passes(ff: FloatFormat, s: State, w: seq<string>, t: State)
    requires Valid(s) && Valid(t)
    requires forall rest :: Step(ff, s, [w] + rest) == Continue(t, rest)
    ensures Reads(ff, s, [w], t)
  {
    forall rest
      ensures Walk(ff, s, [w] + rest) == Walk(ff, t, rest)
    {
      assert Step(ff, s, [w] + rest) == Continue(t, rest);
    }
  }

  lemma Tail(w: seq<string>, rest: seq<seq<string>>)
    ensures ([w] + rest)[0] == w && ([w] + rest)[1..] == rest
  {
  }

  /** A line whose first word is neither HIERARCHY nor MOTION nor End, read
      in the hierarchy and parsed without error into t, leaves t. */
  lemma HierarchyPasses(ff: FloatFormat, s: State, w: seq<string>, t: State)
    requires Valid(s) && s.mode == Hierarchy && w != []
    requires w[0] != "HIERARCHY" && w[0] != "MOTION" && w[0] != "End"
    requires ParseHierarchySpec(ff, s, w) == (t, Done)
    ensures Reads(ff, s, [w], t)
  {
    forall rest
      ensures Step(ff, s, [w] + rest) == Continue(t, rest)
    {
      Tail(w, rest);
    }
    Passes(ff, s, w, t);
  }

  // ---------------------------------------------------------------------------
  // Hierarchy lines
  // ---------------------------------------------------------------------------

  /** HIERARCHY switches the mode and nothing else. */
  lemma HierarchyLine(ff: FloatFormat, s: State)
    requires Valid(s)
    ensures Reads(ff, s, [["HIERARCHY"]], s.(mode := Hierarchy))
  {
    forall rest
      ensures Step(ff, s, [["HIERARCHY"]] + rest) == Continue(s.(mode := Hierarchy), rest)
    {
      Tail(["HIERARCHY"], rest);
    }
    Passes(ff, s, ["HIERARCHY"], s.(mode := Hierarchy));
  }

  /** A brace line changes nothing. */
  lemma BraceLine(ff: FloatFormat, s: State)
    requires Valid(s) && s.mode == Hierarchy
    ensures Reads(ff, s, [["{"]], s)
  {
    HierarchyPasses(ff, s, ["{"], s);
  }

  /** A ROOT line is read by Root: a new joint without parent, made root and
      target. */
  lemma RootLine(ff: FloatFormat, s: State, name: string)
    requires Valid(s) && s.mode == Hierarchy
    ensures var n := |s.nodes|;
      Reads(ff, s, [["ROOT", name]], s.(nodes := s.nodes + [NewNode(None, name)], root := Some(n), target := Some(n)))
  {
    var w := ["ROOT", name];
    HierarchyPasses(ff, s, w, Root(s, w).0);
  }

  /** A JOINT line below a target is read by Joint: a new last child of the
      target, made target. */
  lemma JointLine(ff: FloatFormat, s: State, name: string)
    requires Valid(s) && s.mode == Hierarchy && s.target.Some?
    ensures var t, n := s.target.value, |s.nodes|;
      var nodes := s.nodes[t := s.nodes[t].(children := s.nodes[t].children + [n])];
      Reads(ff, s, [["JOINT", name]], s.(nodes := nodes + [NewNode(Some(t), name)], target := Some(n)))
  {
    var w := ["JOINT", name];
    HierarchyPasses(ff, s, w, Joint(s, w).0);
  }

  /** An OFFSET line of exactly written numbers sets the target's offset to them. */
  lemma OffsetLine(ff: FloatFormat, s: State, v: Vec3)
    requires Valid(s) && s.mode == Hierarchy && s.target.Some?
    requires ShowsExactly(ff, v.x) && ShowsExactly(ff, v.y) && ShowsExactly(ff, v.z)
    ensures var t := s.target.value;
      Reads(ff, s, [["OFFSET", ff.show(v.x), ff.show(v.y), ff.show(v.z)]], s.(nodes := s.nodes[t := s.nodes[t].(offset := v)]))
  {
    var w := ["OFFSET", ff.show(v.x), ff.show(v.y), ff.show(v.z)];
    HierarchyPasses(ff, s, w, Offset(ff, s, w).0);
  }

  /** The channel loop over written names appends the channels they name. */
  lemma {:induction false} AddChannelsNames(s: State, cs: seq<Channel>, i: nat)
    requires Valid(s) && s.target.Some? && i <= |cs|
    ensures AddChannels(s, ["CHANNELS", FormatInt(|cs|)] + NamesOf(cs), i, |cs|) == (WithChannels(s, cs[i..]), Done)
    decreases |cs| - i
  {
    var w := ["CHANNELS", FormatInt(|cs|)] + NamesOf(cs);
    if i == |cs| {
      assert cs[i..] == [];
      NoChannels(s);
    } else {
      assert w[i + 2] == NamesOf(cs)[i];
      NamesReadBack(cs, i);
      var s' := WithChannels(s, [cs[i]]);
      assert AddChannels(s, w, i, |cs|) == AddChannels(s', w, i + 1, |cs|);
      AddChannelsNames(s', cs, i + 1);
      MoreChannels(s, cs, i);
    }
  }

  /** The parser with channels cs appended to the target's. */
  function WithChannels(s: State, cs: seq<Channel>): (r: State)
    requires Valid(s) && s.target.Some?
    ensures Valid(r) && r.target == s.target
  {
    var t := s.target.value;
    s.(nodes := s.nodes[t := s.nodes[t].(channels := s.nodes[t].channels + cs)])
  }

  lemma NoChannels(s: State)
    requires Valid(s) && s.target.Some?
    ensures WithChannels(s, []) == s
  {
    var t := s.target.value;
    assert s.nodes[t].channels + [] == s.nodes[t].channels;
    assert s.nodes[t := s.nodes[t]] == s.nodes;
  }

  lemma MoreChannels(s: State, cs: seq<Channel>, i: nat)
    requires Valid(s) && s.target.Some? && i < |cs|
    ensures WithChannels(WithChannels(s, [cs[i]]), cs[i + 1..]) == WithChannels(s, cs[i..])
  {
    var t := s.target.value;
    assert s.nodes[t].channels + [cs[i]] + cs[i + 1..] == s.nodes[t].channels + cs[i..];
  }

  /** A CHANNELS line as Save writes it appends its channels to the target's. */
  lemma ChannelsLine(ff: FloatFormat, s: State, cs: seq<Channel>)
    requires Valid(s) && s.mode == Hierarchy && s.target.Some? && |cs| <= Int32Max
    ensures Reads(ff, s, [["CHANNELS", FormatInt(|cs|)] + NamesOf(cs)], WithChannels(s, cs))
  {
    var w := ["CHANNELS", FormatInt(|cs|)] + NamesOf(cs);
    ParseFormatInt(|cs|);
    AddChannelsNames(s, cs, 0);
    assert cs[0..] == cs;
    assert w[0] == "CHANNELS";
    HierarchyPasses(ff, s, w, WithChannels(s, cs));
  }

  /** End Site and the three lines after it change nothing. */
  lemma EndSiteLine(ff: FloatFormat, s: State, x: seq<string>, y: seq<string>, z: seq<string>)
    requires Valid(s) && s.mode == Hierarchy
    ensures Reads(ff, s, [["End", "Site"], x, y, z], s)
  {
    forall rest
      ensures Walk(ff, s, [["End", "Site"], x, y, z] + rest) == Walk(ff, s, rest)
    {
      var lines := [["End", "Site"], x, y, z] + rest;
      assert lines[0] == ["End", "Site"];
      assert AfterEndSite(lines) == rest;
    }
  }

  /** A closing brace moves the target to its parent. */
  lemma CloseLine(ff: FloatFormat, s: State)
    requires Valid(s) && s.mode == Hierarchy && s.target.Some?
    ensures Reads(ff, s, [["}"]], s.(target := s.nodes[s.target.value].parent))
  {
    HierarchyPasses(ff, s, ["}"], Close(s).0);
  }

  // ---------------------------------------------------------------------------
  // Motion lines
  // ---------------------------------------------------------------------------

  /** MOTION switches the mode and nothing else. */
  lemma MotionLine(ff: FloatFormat, s: State)
    requires Valid(s)
    ensures Reads(ff, s, [["MOTION"]], s.(mode := Motion))
  {
    forall rest
      ensures Step(ff, s, [["MOTION"]] + rest) == Continue(s.(mode := Motion), rest)
    {
      Tail(["MOTION"], rest);
    }
    Passes(ff, s, ["MOTION"], s.(mode := Motion));
  }

  /** A blank line changes nothing. */
  lemma BlankLine(ff: FloatFormat, s: State)
    requires Valid(s)
    ensures Reads(ff, s, [[]], s)
  {
    forall rest
      ensures Step(ff, s, [[]] + rest) == Continue(s, rest)
    {
      Tail([], rest);
    }
    Passes(ff, s, [], s);
  }

  /** A motion line parsed without error into t leaves t. */
  lemma MotionPasses(ff: FloatFormat, s: State, w: seq<string>, t: State)
    requires Valid(s) && s.mode == Motion && w != [] && w[0] != "HIERARCHY" && w[0] != "MOTION"
    requires ParseMotionSpec(ff, s, w) == (t, Done)
    ensures Reads(ff, s, [w], t)
  {
    forall rest
      ensures Step(ff, s, [w] + rest) == Continue(t, rest)
    {
      Tail(w, rest);
    }
    Passes(ff, s, w, t);
  }

  /** `Frames: n` sets the frame count. */
  lemma FramesLine(ff: FloatFormat, s: State, n: Int32)
    requires Valid(s) && s.mode == Motion && !s.isFrameNum
    ensures Reads(ff, s, [["Frames:", FormatInt(n)]], s.(frameNum := n, isFrameNum := true))
  {
    var w := ["Frames:", FormatInt(n)];
    ParseFormatInt(n);
    MotionPasses(ff, s, w, s.(frameNum := n, isFrameNum := true));
  }

  /** `Frame Time: v` sets the frame span to an exactly written v. */
  lemma FrameTimeLine(ff: FloatFormat, s: State, v: real)
    requires Valid(s) && s.mode == Motion && !s.isFrameSpan && ShowsExactly(ff, v)
    ensures Reads(ff, s, [["Frame", "Time:", ff.show(v)]], s.(frameSpan := v, isFrameSpan := true))
  {
    var w := ["Frame", "Time:", ff.show(v)];
    assert Header(ff, s, w) == FrameTime(ff, s, w, 2);
    MotionPasses(ff, s, w, s.(frameSpan := v, isFrameSpan := true));
  }

  /** After the header, a line every joint reads its sample from is stored as
      frame motionNum. */
  lemma SampleLine(ff: FloatFormat, s: State, w: seq<string>, t: State)
    requires Valid(s) && s.mode == Motion && s.isFrameNum && s.isFrameSpan
    requires w != [] && w[0] != "HIERARCHY" && w[0] != "MOTION"
    requires FillFrom(ff, s.nodes, 0, w, 0, s.motionNum).1
    requires t == s.(nodes := FillFrom(ff, s.nodes, 0, w, 0, s.motionNum).0, motionNum := Inc32(s.motionNum))
    ensures Reads(ff, s, [w], t)
  {
    MotionPasses(ff, s, w, t);
  }
}
