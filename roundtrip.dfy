/** Save followed by Load: a parser holding a single-rooted tree whose names
    are single words and whose numbers are written exactly reads back its
    own file as the same joints, the same frame count and frame time, and
    per frame the sample components that the joints' channels carry. */
module RoundTrip {
  import opened Options
  import opened Text
  import opened Skeleton
  import opened LoadSpec
  import opened SaveSpec
  import opened Reload
  import opened SaveWords
  import opened ReloadTree
  import opened ReloadMotion

  /** What Save needs for its file to read back: a single root at the front
      of a tree built as Load builds it, pairwise different names that are
      single words, and every number written exactly. */
  predicate Saveable(ff: FloatFormat, s: State) {
    Valid(s) && Tree(s.nodes) && |s.nodes| > 0 && s.root == Some(0) &&
    s.nodes[0].parent.None? && (forall i :: 0 < i < |s.nodes| ==> s.nodes[i].parent.Some?) &&
    Readable(ff, s.nodes) && DistinctNames(s.nodes, |s.nodes|) &&
    ShowsExactly(ff, s.frameSpan) && SamplesShown(ff, s.nodes, FrameTotal(s))
  }

  // ---------------------------------------------------------------------------
  // The words of the saved file
  // ---------------------------------------------------------------------------

  lemma HierarchyWordSaid()
    ensures Tokenize("HIERARCHY") == ["HIERARCHY"]
  {
    assert "" + "HIERARCHY" == "HIERARCHY";
    WordLine("", "HIERARCHY");
  }

  /** Save succeeds, and its lines cut into words are HIERARCHY, the root
      block and the motion block. */
  lemma SavedWords(ff: FloatFormat, s: State)
    requires Saveable(ff, s)
    ensures SaveLines(ff, s).1
    ensures TokenizeLines(SaveLines(ff, s).0) == [["HIERARCHY"]] + RootWords(ff, s.nodes, 0) + MotionWords(ff, s)
  {
    var h := ["HIERARCHY"] + RootLines(ff, s.nodes, 0);
    assert SaveLines(ff, s).0 == h + MotionLines(ff, s);
    TokenizeLinesAppend(h, MotionLines(ff, s));
    TokenizeLinesAppend(["HIERARCHY"], RootLines(ff, s.nodes, 0));
    TokenizeLinesOne("HIERARCHY");
    HierarchyWordSaid();
    RootSaid(ff, s.nodes);
    MotionSaid(ff, s);
  }

  // ---------------------------------------------------------------------------
  // The reader, section by section
  // ---------------------------------------------------------------------------

  /** The reader after HIERARCHY. */
  function Opening(p: State): State {
    Reset(p).(mode := Hierarchy)
  }

  /** The reader after the root block: every joint rebuilt, joint 0 as root. */
  function Hier(p: State, nodes: seq<Node>): State {
    At(Opening(p), nodes, |nodes|, None).(root := Some(0))
  }

  /** The reader after the three header lines of the motion block. */
  function Header(h: State, n: Int32, v: real): State {
    h.(mode := Motion).(frameNum := n, isFrameNum := true).(frameSpan := v, isFrameSpan := true)
  }

  /** The reader after the n frame lines Save wrote for orig: the frames
      stored, or, without a single channel, blank lines that change nothing. */
  function Sampled(m: State, orig: seq<Node>, n: nat): State
    requires SameChannels(m.nodes, orig) && n <= Int32Max
  {
    if ChannelCount(orig, |orig|) > 0 then After(m, orig, n) else m
  }

  /** HIERARCHY and the root block rebuild the joint list. */
  lemma HierarchyRead(ff: FloatFormat, s: State, p: State)
    requires Saveable(ff, s)
    ensures Reads(ff, Reset(p), [["HIERARCHY"]] + RootWords(ff, s.nodes, 0), Hier(p, s.nodes))
  {
    HierarchyLine(ff, Reset(p));
    RootReads(ff, s.nodes, Opening(p));
    ThenReads(ff, Reset(p), [["HIERARCHY"]], Opening(p), RootWords(ff, s.nodes, 0), Hier(p, s.nodes));
  }

  /** MOTION, Frames and Frame Time set the mode, the frame count and the
      frame span. */
  lemma HeaderRead(ff: FloatFormat, h: State, n: Int32, v: real)
    requires Valid(h) && !h.isFrameNum && !h.isFrameSpan && ShowsExactly(ff, v)
    ensures Reads(ff, h, [["MOTION"], ["Frames:", FormatInt(n)], ["Frame", "Time:", ff.show(v)]], Header(h, n, v))
  {
    var m0 := h.(mode := Motion);
    var m1 := m0.(frameNum := n, isFrameNum := true);
    MotionLine(ff, h);
    FramesLine(ff, m0, n);
    FrameTimeLine(ff, m1, v);
    ThenReads(ff, h, [["MOTION"]], m0, [["Frames:", FormatInt(n)]], m1);
    ThenReads(ff, h, [["MOTION"]] + [["Frames:", FormatInt(n)]], m1, [["Frame", "Time:", ff.show(v)]], Header(h, n, v));
    Cat3(["MOTION"], ["Frames:", FormatInt(n)], ["Frame", "Time:", ff.show(v)]);
  }

  /** The frame lines and the final blank line. */
  lemma BodyRead(ff: FloatFormat, orig: seq<Node>, m: State, n: nat)
    requires ReloadMotion.Headed(m) && SameChannels(m.nodes, orig) && n <= Int32Max
    requires SamplesShown(ff, orig, n)
    ensures Reads(ff, m, FrameWords(ff, orig, n) + [[]], Sampled(m, orig, n))
  {
    if ChannelCount(orig, |orig|) > 0 {
      FramesRead(ff, orig, m, n);
    } else {
      BlankFramesRead(ff, orig, m, 0, n);
      assert FrameWords(ff, orig, n)[0..] == FrameWords(ff, orig, n);
    }
    ReadsValid(ff, m, FrameWords(ff, orig, n), Sampled(m, orig, n));
    BlankLine(ff, Sampled(m, orig, n));
    ThenReads(ff, m, FrameWords(ff, orig, n), Sampled(m, orig, n), [[]], Sampled(m, orig, n));
  }

  /** The whole motion block. */
  lemma MotionRead(ff: FloatFormat, s: State, h: State)
    requires Valid(h) && !h.isFrameNum && !h.isFrameSpan && h.motionNum == 0 && SameChannels(h.nodes, s.nodes)
    requires ShowsExactly(ff, s.frameSpan) && SamplesShown(ff, s.nodes, FrameTotal(s))
    ensures Reads(ff, h, MotionWords(ff, s), Sampled(Header(h, s.frameNum, s.frameSpan), s.nodes, FrameTotal(s)))
  {
    var head := [["MOTION"], ["Frames:", FormatInt(s.frameNum)], ["Frame", "Time:", ff.show(s.frameSpan)]];
    var body := FrameWords(ff, s.nodes, FrameTotal(s)) + [[]];
    HeaderRead(ff, h, s.frameNum, s.frameSpan);
    ReadsValid(ff, h, head, Header(h, s.frameNum, s.frameSpan));
    BodyRead(ff, s.nodes, Header(h, s.frameNum, s.frameSpan), FrameTotal(s));
    ThenReads(ff, h, head, Header(h, s.frameNum, s.frameSpan), body,
              Sampled(Header(h, s.frameNum, s.frameSpan), s.nodes, FrameTotal(s)));
    Assoc(head, FrameWords(ff, s.nodes, FrameTotal(s)), [[]]);
  }

  // ---------------------------------------------------------------------------
  // The reader at the end of the file
  // ---------------------------------------------------------------------------

  lemma RebuiltChannels(nodes: seq<Node>)
    ensures SameChannels(Rebuilt(nodes, |nodes|), nodes)
  {
  }

  /** The reader once every line of the saved file is read. */
  function Reloaded(p: State, s: State): State
    requires SameChannels(Hier(p, s.nodes).nodes, s.nodes)
  {
    Sampled(Header(Hier(p, s.nodes), s.frameNum, s.frameSpan), s.nodes, FrameTotal(s))
  }

  /** The whole file, word by word, takes the fresh reader to Reloaded. */
  lemma FileRead(ff: FloatFormat, s: State, p: State)
    requires Saveable(ff, s)
    ensures SameChannels(Hier(p, s.nodes).nodes, s.nodes)
    ensures Reads(ff, Reset(p), [["HIERARCHY"]] + RootWords(ff, s.nodes, 0) + MotionWords(ff, s), Reloaded(p, s))
  {
    RebuiltChannels(s.nodes);
    HierarchyRead(ff, s, p);
    ReadsValid(ff, Reset(p), [["HIERARCHY"]] + RootWords(ff, s.nodes, 0), Hier(p, s.nodes));
    MotionRead(ff, s, Hier(p, s.nodes));
    ThenReads(ff, Reset(p), [["HIERARCHY"]] + RootWords(ff, s.nodes, 0), Hier(p, s.nodes), MotionWords(ff, s), Reloaded(p, s));
  }

  /** Without a single channel every channel list is empty. */
  lemma {:induction false} NoChannels(nodes: seq<Node>, k: nat)
    requires k <= |nodes| && ChannelCount(nodes, k) == 0
    ensures forall i :: 0 <= i < k ==> nodes[i].channels == []
  {
    if k > 0 {
      NoChannels(nodes, k - 1);
    }
  }

  /** The joints read back: the saved ones, with, for every frame saved, the
      components their channels carry, and (0,0,0) everywhere else. */
  lemma ReloadedNodes(p: State, s: State)
    requires Linked(s.nodes) && SameChannels(Hier(p, s.nodes).nodes, s.nodes)
    ensures SameShape(s.nodes, Reloaded(p, s).nodes)
    ensures forall i, f :: 0 <= i < |s.nodes| ==>
      Reloaded(p, s).nodes[i].GetMotionPos(f) == (if 0 <= f < FrameTotal(s) then SeenPos(s.nodes[i], f) else Zero) &&
      Reloaded(p, s).nodes[i].GetMotionRot(f) == (if 0 <= f < FrameTotal(s) then SeenRot(s.nodes[i], f) else Zero)
  {
    var base := Rebuilt(s.nodes, |s.nodes|);
    var r := Reloaded(p, s).nodes;
    RebuiltAll(s.nodes);
    if ChannelCount(s.nodes, |s.nodes|) > 0 {
      assert r == Loaded(base, s.nodes, FrameTotal(s));
      LoadedReads(base, s.nodes, FrameTotal(s));
      forall i | 0 <= i < |s.nodes|
        ensures r[i] == s.nodes[i].(motionPos := r[i].motionPos, motionRot := r[i].motionRot)
      {
        assert Tracks(base[i], r[i], s.nodes[i], FrameTotal(s));
      }
    } else {
      assert r == base;
      NoChannels(s.nodes, |s.nodes|);
      forall i, f | 0 <= i < |s.nodes|
        ensures SeenPos(s.nodes[i], f) == Zero && SeenRot(s.nodes[i], f) == Zero
      {
        CoverNone(Zero, true, s.nodes[i].GetMotionPos(f));
        CoverNone(Zero, false, s.nodes[i].GetMotionRot(f));
      }
    }
  }

  /** Finishing adds every name once, pointing at its joint. */
  lemma FinishNames(s: State, e: State)
    requires Valid(e) && e.dic == map[] && SameShape(s.nodes, e.nodes) && DistinctNames(s.nodes, |s.nodes|)
    ensures Finish(e).1 == Done && Finish(e).0 == e.(dic := Finish(e).0.dic, isEnable := true)
    ensures forall i :: 0 <= i < |s.nodes| ==> s.nodes[i].name in Finish(e).0.dic && Finish(e).0.dic[s.nodes[i].name] == i
  {
    assert forall i :: 0 <= i < |s.nodes| ==> e.nodes[i].name == s.nodes[i].name;
    AddNamesOk(map[], e.nodes, |e.nodes|);
    AddNamesIndex(map[], e.nodes, |e.nodes|);
  }

  // ---------------------------------------------------------------------------
  // The round trip
  // ---------------------------------------------------------------------------

  /** Save, then Load of the saved lines on any parser p: Load succeeds,
      finds the same joints under the same root, the same frame count and
      frame time, each name leading to its joint, and for every saved frame
      the components each joint's channels carry (the rest reads (0,0,0)). */
  lemma SaveThenLoad(ff: FloatFormat, s: State, p: State)
    requires Saveable(ff, s) && Valid(p)
    ensures SaveLines(ff, s).1
    ensures var (t, st) := Load(ff, p, SaveLines(ff, s).0);
      st == Done && t.isEnable && t.root == Some(0) &&
      t.frameNum == s.frameNum && t.frameSpan == s.frameSpan &&
      SameShape(s.nodes, t.nodes) &&
      (forall i, f :: 0 <= i < |s.nodes| ==>
        t.nodes[i].GetMotionPos(f) == (if 0 <= f < FrameTotal(s) then SeenPos(s.nodes[i], f) else Zero) &&
        t.nodes[i].GetMotionRot(f) == (if 0 <= f < FrameTotal(s) then SeenRot(s.nodes[i], f) else Zero)) &&
      (forall i :: 0 <= i < |s.nodes| ==> s.nodes[i].name in t.dic && t.dic[s.nodes[i].name] == i)
  {
    LoadSaved(ff, s, p);
    ReloadedNodes(p, s);
    FinishNames(s, Reloaded(p, s));
  }

  /** Loading the saved lines walks the whole file and then indexes the
      names of the reloaded joints. */
  lemma LoadSaved(ff: FloatFormat, s: State, p: State)
    requires Saveable(ff, s) && Valid(p)
    ensures SaveLines(ff, s).1
    ensures SameChannels(Hier(p, s.nodes).nodes, s.nodes) && Valid(Reloaded(p, s))
    ensures Load(ff, p, SaveLines(ff, s).0) == Finish(Reloaded(p, s))
  {
    WalkSaved(ff, s, p);
    RunWalk(ff, Reset(p), TokenizeLines(SaveLines(ff, s).0));
  }

  /** The line loop runs through the saved lines without a pass returning
      and leaves the reloaded state. */
  lemma WalkSaved(ff: FloatFormat, s: State, p: State)
    requires Saveable(ff, s) && Valid(p)
    ensures SaveLines(ff, s).1
    ensures SameChannels(Hier(p, s.nodes).nodes, s.nodes) && Valid(Reloaded(p, s))
    ensures Walk(ff, Reset(p), TokenizeLines(SaveLines(ff, s).0)) == Continue(Reloaded(p, s), [])
  {
    var all := [["HIERARCHY"]] + RootWords(ff, s.nodes, 0) + MotionWords(ff, s);
    assert SaveLines(ff, s).1 && TokenizeLines(SaveLines(ff, s).0) == all by {
      SavedWords(ff, s);
    }
    FileRead(ff, s, p);
    ReadsAll(ff, Reset(p), all, Reloaded(p, s));
  }
}
