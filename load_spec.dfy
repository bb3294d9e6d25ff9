/** What BVHParser.Load does to the parser's fields, as functions: the line
    loop and mode machine of Load(StreamReader), ParseHierarchy, ParseMotion
    and the name index built at the end. */
module LoadSpec {
  import opened Options
  import opened Text
  import opened Skeleton

  /** BVHParser.Mode. */
  datatype Mode = Unknown | Hierarchy | Motion

  /** The fields of a BVHParser. Joints are held by their index in `nodes`,
      the declaration-order list _nodeOrder. */
  datatype State = State(
    mode: Mode,
    root: Option<nat>,
    target: Option<nat>,
    nodes: seq<Node>,
    dic: map<string, nat>,
    isFrameNum: bool,
    isFrameSpan: bool,
    motionNum: Int32,
    frameNum: Int32,
    frameSpan: real,
    isEnable: bool)

  /** How a step ends: normally, with the `false` that makes Load give up,
      or with an exception. */
  datatype Status = Done | Failed | Threw

  /** Every joint reference the parser holds points into its joint list. */
  predicate Valid(s: State) {
    ParentsBefore(s.nodes) &&
    (s.root.Some? ==> s.root.value < |s.nodes|) &&
    (s.target.Some? ==> s.target.value < |s.nodes|) &&
    (forall n :: n in s.dic ==> s.dic[n] < |s.nodes|)
  }

  /** The joints are the same but for their sample tables. */
  predicate SameShape(a: seq<Node>, b: seq<Node>) {
    |a| == |b| &&
    forall i :: 0 <= i < |a| ==> b[i] == a[i].(motionPos := b[i].motionPos, motionRot := b[i].motionRot)
  }

  /** Load(string) before it reads: the cursor, both lists, the header flags
      and the sample counter start over; IsEnable, FrameNum and FrameSpan
      keep their values. */
  function Reset(s: State): State {
    s.(mode := Unknown, root := None, target := None, nodes := [], dic := map[],
       isFrameNum := false, isFrameSpan := false, motionNum := 0)
  }

  // ---------------------------------------------------------------------------
  // ParseHierarchy
  // ---------------------------------------------------------------------------

  /** One HIERARCHY line, by its first word. */
  function ParseHierarchySpec(ff: FloatFormat, s: State, w: seq<string>): (r: (State, Status))
    requires Valid(s) && |w| >= 1
    ensures Valid(r.0)
  {
    if w[0] == "ROOT" then Root(s, w)
    else if w[0] == "}" then Close(s)
    else if w[0] == "OFFSET" then Offset(ff, s, w)
    else if w[0] == "CHANNELS" then Channels(s, w)
    else if w[0] == "JOINT" then Joint(s, w)
    else (s, Done)
  }

  /** ROOT name: a new joint without parent becomes root and target and is
      appended to the list. */
  function Root(s: State, w: seq<string>): (r: (State, Status))
    requires Valid(s)
    ensures Valid(r.0)
  {
    if |w| < 2 then (s, Threw)
    else
      var n := |s.nodes|;
      (s.(nodes := s.nodes + [NewNode(None, w[1])], root := Some(n), target := Some(n)), Done)
  }

  /** `}`: the target moves to its parent; with no target, a null dereference. */
  function Close(s: State): (r: (State, Status))
    requires Valid(s)
    ensures Valid(r.0)
  {
    if s.target.None? then (s, Threw)
    else (s.(target := s.nodes[s.target.value].parent), Done)
  }

  /** OFFSET x y z: the target's offset; a missing or malformed number, or no
      target, throws before anything changes. */
  function Offset(ff: FloatFormat, s: State, w: seq<string>): (r: (State, Status))
    requires Valid(s)
    ensures Valid(r.0)
  {
    if |w| < 4 then (s, Threw)
    else
      var x, y, z := ff.parse(w[1]), ff.parse(w[2]), ff.parse(w[3]);
      if x.None? || y.None? || z.None? || s.target.None? then (s, Threw)
      else
        var t := s.target.value;
        (s.(nodes := s.nodes[t := s.nodes[t].(offset := Vec3(x.value, y.value, z.value))]), Done)
  }

  /** CHANNELS n c1 .. cn. */
  function Channels(s: State, w: seq<string>): (r: (State, Status))
    requires Valid(s)
    ensures Valid(r.0)
  {
    if |w| < 2 then (s, Threw)
    else
      match ParseInt(w[1])
      case None => (s, Threw)
      case Some(n) => AddChannels(s, w, 0, n)
  }

  /** The channel loop from i on: word i+2 must exist and name a channel, and
      is appended to the target's list before the next word is looked at. */
  function AddChannels(s: State, w: seq<string>, i: nat, n: int): (r: (State, Status))
    requires Valid(s)
    ensures Valid(r.0)
    decreases n - i
  {
    if n <= i then (s, Done)
    else if |w| <= i + 2 then (s, Threw)
    else
      match ChannelFromName(w[i + 2])
      case None => (s, Failed)
      case Some(c) =>
        if s.target.None? then (s, Threw)
        else
          var t := s.target.value;
          AddChannels(s.(nodes := s.nodes[t := s.nodes[t].(channels := s.nodes[t].channels + [c])]), w, i + 1, n)
  }

  /** JOINT name: a new child of the target, appended to the target's child
      list and to the joint list, becomes the target. */
  function Joint(s: State, w: seq<string>): (r: (State, Status))
    requires Valid(s)
    ensures Valid(r.0)
  {
    if |w| < 2 || s.target.None? then (s, Threw)
    else
      var t, n := s.target.value, |s.nodes|;
      var nodes := s.nodes[t := s.nodes[t].(children := s.nodes[t].children + [n])];
      (s.(nodes := nodes + [NewNode(Some(t), w[1])], target := Some(n)), Done)
  }

  // ---------------------------------------------------------------------------
  // ParseMotion
  // ---------------------------------------------------------------------------

  /** One MOTION line: a header line until both Frames and Frame Time have
      been seen, a sample line after that. It never answers false. */
  function ParseMotionSpec(ff: FloatFormat, s: State, w: seq<string>): (r: (State, Status))
    requires Valid(s) && |w| >= 1
    ensures Valid(r.0)
    ensures r.1 != Failed
  {
    if !s.isFrameNum || !s.isFrameSpan then Header(ff, s, w)
    else
      var (nodes, ok) := FillFrom(ff, s.nodes, 0, w, 0, s.motionNum);
      if ok then (s.(nodes := nodes, motionNum := Inc32(s.motionNum)), Done)
      else (s.(nodes := nodes), Threw)
  }

  /** The header patterns, in the order the source tests them; a word the
      tests need and the line lacks is an out-of-range index. */
  function Header(ff: FloatFormat, s: State, w: seq<string>): (r: (State, Status))
    requires Valid(s) && |w| >= 1
    ensures Valid(r.0) && r.1 != Failed
    ensures r.0 == s.(frameNum := r.0.frameNum, isFrameNum := r.0.isFrameNum,
                      frameSpan := r.0.frameSpan, isFrameSpan := r.0.isFrameSpan)
  {
    if w[0] == "Frames:" then FrameCount(s, w, 1)
    else if w[0] == "Frames" && |w| < 2 then (s, Threw)
    else if w[0] == "Frames" && w[1] == ":" then FrameCount(s, w, 2)
    else if w[0] == "Frame" && |w| < 2 then (s, Threw)
    else if w[0] == "Frame" && w[1] == "Time:" then FrameTime(ff, s, w, 2)
    else if w[0] == "Frame" && w[1] == "Time" && |w| < 3 then (s, Threw)
    else if w[0] == "Frame" && w[1] == "Time" && w[2] == ":" then FrameTime(ff, s, w, 3)
    else (s, Done)
  }

  function FrameCount(s: State, w: seq<string>, k: nat): (r: (State, Status))
    requires Valid(s)
    ensures Valid(r.0) && r.1 != Failed
    ensures r.0 == s.(frameNum := r.0.frameNum, isFrameNum := r.0.isFrameNum,
                      frameSpan := r.0.frameSpan, isFrameSpan := r.0.isFrameSpan)
  {
    if |w| <= k then (s, Threw)
    else
      match ParseInt(w[k])
      case None => (s, Threw)
      case Some(n) => (s.(frameNum := n, isFrameNum := true), Done)
  }

  function FrameTime(ff: FloatFormat, s: State, w: seq<string>, k: nat): (r: (State, Status))
    requires Valid(s)
    ensures Valid(r.0) && r.1 != Failed
    ensures r.0 == s.(frameNum := r.0.frameNum, isFrameNum := r.0.isFrameNum,
                      frameSpan := r.0.frameSpan, isFrameSpan := r.0.isFrameSpan)
  {
    if |w| <= k then (s, Threw)
    else
      match ff.parse(w[k])
      case None => (s, Threw)
      case Some(v) => (s.(frameSpan := v, isFrameSpan := true), Done)
  }

  /** The channel loop for one joint: channel ch reads word at + ch (the
      running wordIndex) into the component it names; None is the exception
      of a missing word or one that is not a number. */
  function ReadSample(ff: FloatFormat, chans: seq<Channel>, w: seq<string>, at: nat, ch: nat, pos: Vec3, rot: Vec3): Option<(Vec3, Vec3)>
    requires ch <= |chans|
    decreases |chans| - ch
  {
    if ch == |chans| then Some((pos, rot))
    else if |w| <= at + ch then None
    else
      match ff.parse(w[at + ch])
      case None => None
      case Some(v) =>
        var c := chans[ch];
        if c.IsPosition() then ReadSample(ff, chans, w, at, ch + 1, pos.With(c.Axis(), v), rot)
        else ReadSample(ff, chans, w, at, ch + 1, pos, rot.With(c.Axis(), v))
  }

  /** The joint loop from joint k on, whose first word is at: each joint's
      sample is stored at frame f before the next joint is read, so a failure
      leaves the earlier joints written. */
  function FillFrom(ff: FloatFormat, nodes: seq<Node>, k: nat, w: seq<string>, at: nat, f: int): (r: (seq<Node>, bool))
    requires k <= |nodes|
    ensures SameShape(nodes, r.0)
    decreases |nodes| - k
  {
    if k == |nodes| then (nodes, true)
    else
      match ReadSample(ff, nodes[k].channels, w, at, 0, Zero, Zero)
      case None => (nodes, false)
      case Some((pos, rot)) =>
        var node := nodes[k].SetMotionPos(f, pos).SetMotionRot(f, rot);
        FillFrom(ff, nodes[k := node], k + 1, w, at + |nodes[k].channels|, f)
  }

  // ---------------------------------------------------------------------------
  // The line loop of Load(StreamReader)
  // ---------------------------------------------------------------------------

  /** Every line already cut into its words. */
  predicate WordLines(lines: seq<seq<string>>) {
    forall k, j :: 0 <= k < |lines| && 0 <= j < |lines[k]| ==> IsToken(lines[k][j])
  }

  /** The words of each line, as the line loop splits them. */
  function TokenizeLines(lines: seq<string>): (r: seq<seq<string>>)
    ensures |r| == |lines|
  {
    seq(|lines|, k requires 0 <= k < |lines| => Tokenize(lines[k]))
  }

  /** Every word the line loop sees is a token. */
  lemma TokenizeLinesWords(lines: seq<string>)
    ensures WordLines(TokenizeLines(lines))
  {
    var r := TokenizeLines(lines);
    forall k | 0 <= k < |r|
      ensures forall j :: 0 <= j < |r[k]| ==> IsToken(r[k][j])
    {
      assert r[k] == Tokenize(lines[k]);
    }
  }

  /** The rest of the lines after an End Site line and the three lines it
      skips (ReadLine past the end reads nothing). */
  function AfterEndSite(lines: seq<seq<string>>): seq<seq<string>> {
    if |lines| < 4 then [] else lines[4..]
  }

  /** Where one pass of the line loop leaves Load(StreamReader): reading on
      from the remaining lines, or returning with a status. */
  datatype Next = Continue(state: State, rest: seq<seq<string>>) | Stop(state: State, status: Status)

  /** One pass of the line loop on the words of the first line: a blank line
      is skipped, a first word HIERARCHY or MOTION only switches mode, End Site
      skips the three lines after it, other lines go to ParseHierarchy or
      ParseMotion by mode and are ignored while the mode is unknown. */
  function Step(ff: FloatFormat, s: State, lines: seq<seq<string>>): (r: Next)
    requires Valid(s) && lines != []
    ensures Valid(r.state)
    ensures r.Continue? ==> |r.rest| < |lines| && r.rest == lines[|lines| - |r.rest|..]
  {
    var w := lines[0];
    if w == [] then Continue(s, lines[1..])
    else if w[0] == "HIERARCHY" then Continue(s.(mode := Hierarchy), lines[1..])
    else if w[0] == "MOTION" then Continue(s.(mode := Motion), lines[1..])
    else if s.mode == Hierarchy then HierarchyPassSpec(ff, s, lines)
    else if s.mode == Motion then MotionPassSpec(ff, s, lines)
    else Continue(s, lines[1..])
  }

  /** A pass in HIERARCHY mode on a line with words: End Site skips the three
      lines after it, a lone End throws, other lines go to ParseHierarchy. */
  function HierarchyPassSpec(ff: FloatFormat, s: State, lines: seq<seq<string>>): (r: Next)
    requires Valid(s) && lines != [] && lines[0] != []
    ensures Valid(r.state)
    ensures r.Continue? ==> |r.rest| < |lines| && r.rest == lines[|lines| - |r.rest|..]
  {
    var w := lines[0];
    if w[0] == "End" && |w| < 2 then Stop(s, Threw)
    else if w[0] == "End" && w[1] == "Site" then Continue(s, AfterEndSite(lines))
    else
      var (s', st) := ParseHierarchySpec(ff, s, w);
      if st == Done then Continue(s', lines[1..]) else Stop(s', st)
  }

  /** A pass in MOTION mode on a line with words: ParseMotion. */
  function MotionPassSpec(ff: FloatFormat, s: State, lines: seq<seq<string>>): (r: Next)
    requires Valid(s) && lines != [] && lines[0] != []
    ensures Valid(r.state)
    ensures r.Continue? ==> |r.rest| < |lines| && r.rest == lines[|lines| - |r.rest|..]
  {
    var (s', st) := ParseMotionSpec(ff, s, lines[0]);
    if st == Done then Continue(s', lines[1..]) else Stop(s', st)
  }

  /** Load(StreamReader) on the remaining lines: the line loop until the
      lines run out or a pass returns, then the name index is built. */
  function Run(ff: FloatFormat, s: State, lines: seq<seq<string>>): (r: (State, Status))
    requires Valid(s)
    ensures Valid(r.0)
    decreases |lines|
  {
    if lines == [] then Finish(s)
    else
      match Step(ff, s, lines)
      case Continue(s', rest) => Run(ff, s', rest)
      case Stop(s', st) => (s', st)
  }

  /** Load(string): the reset, then the line loop over the file's lines. */
  function Load(ff: FloatFormat, s: State, lines: seq<string>): (r: (State, Status))
    requires Valid(s)
    ensures Valid(r.0)
  {
    Run(ff, Reset(s), TokenizeLines(lines))
  }

  /** The end of Load(StreamReader): every joint's name is added to the index
      (Dictionary.Add throws on a name already there), then IsEnable is set. */
  function Finish(s: State): (r: (State, Status))
    requires Valid(s)
    ensures Valid(r.0)
  {
    var (dic, ok) := AddNames(s.dic, s.nodes, |s.nodes|);
    if ok then (s.(dic := dic, isEnable := true), Done) else (s.(dic := dic), Threw)
  }

  /** The names of the first k joints are pairwise different. */
  predicate DistinctNames(nodes: seq<Node>, k: nat)
    requires k <= |nodes|
  {
    forall i, j :: 0 <= i < j < k ==> nodes[i].name != nodes[j].name
  }

  /** The first k joints added to dic one by one; false is the exception
      Dictionary.Add throws on a name already there, after the joints before
      it were added. */
  function AddNames(dic: map<string, nat>, nodes: seq<Node>, k: nat): (r: (map<string, nat>, bool))
    requires k <= |nodes|
    requires forall n :: n in dic ==> dic[n] < |nodes|
    ensures forall n :: n in r.0 ==> r.0[n] < |nodes|
  {
    if k == 0 then (dic, true)
    else
      var (d, ok) := AddNames(dic, nodes, k - 1);
      var name := nodes[k - 1].name;
      if !ok then (d, false)
      else if name in d then (d, false)
      else (d[name := k - 1], true)
  }

  /** Every name in the index leads to a joint of that name. */
  predicate Indexed(s: State) {
    forall n :: n in s.dic ==> s.dic[n] < |s.nodes| && s.nodes[s.dic[n]].name == n
  }

  /** Adding names, even up to a name already there, keeps every key on a
      joint of that name. */
  lemma {:induction false} AddNamesNamed(dic: map<string, nat>, nodes: seq<Node>, k: nat)
    requires k <= |nodes|
    requires forall n :: n in dic ==> dic[n] < |nodes| && nodes[dic[n]].name == n
    ensures var d := AddNames(dic, nodes, k).0;
      forall n :: n in d ==> d[n] < |nodes| && nodes[d[n]].name == n
  {
    if k > 0 {
      AddNamesNamed(dic, nodes, k - 1);
      var (d, ok) := AddNames(dic, nodes, k - 1);
      assert d == AddNames(dic, nodes, k - 1).0;
      assert forall n :: n in d ==> d[n] < |nodes| && nodes[d[n]].name == n;
      var name := nodes[k - 1].name;
      if ok && name !in d {
        assert AddNames(dic, nodes, k).0 == d[name := k - 1];
      } else {
        assert AddNames(dic, nodes, k).0 == d;
      }
    }
  }

  /** Adding succeeds exactly when the names are new and pairwise different. */
  lemma {:induction false} AddNamesOk(dic: map<string, nat>, nodes: seq<Node>, k: nat)
    requires k <= |nodes|
    requires forall n :: n in dic ==> dic[n] < |nodes|
    ensures AddNames(dic, nodes, k).1 <==>
      DistinctNames(nodes, k) && forall i :: 0 <= i < k ==> nodes[i].name !in dic
  {
    if k > 0 {
      AddNamesOk(dic, nodes, k - 1);
      AddNamesOkStep(dic, nodes, k);
    }
  }

  /** One step of AddNamesOk: the claim for k names follows from the claim for
      the first k - 1. */
  lemma AddNamesOkStep(dic: map<string, nat>, nodes: seq<Node>, k: nat)
    requires 0 < k <= |nodes|
    requires forall n :: n in dic ==> dic[n] < |nodes|
    requires AddNames(dic, nodes, k - 1).1 <==>
      DistinctNames(nodes, k - 1) && forall i :: 0 <= i < k - 1 ==> nodes[i].name !in dic
    ensures AddNames(dic, nodes, k).1 <==>
      DistinctNames(nodes, k) && forall i :: 0 <= i < k ==> nodes[i].name !in dic
  {
    var (d, ok) := AddNames(dic, nodes, k - 1);
    var name := nodes[k - 1].name;
    assert AddNames(dic, nodes, k).1 == (ok && name !in d);
    assert DistinctNames(nodes, k) <==>
      DistinctNames(nodes, k - 1) && forall i :: 0 <= i < k - 1 ==> nodes[i].name != name
    by { DistinctNamesNext(nodes, k); }
    if ok {
      assert forall n :: n in d <==> n in dic || exists i :: 0 <= i < k - 1 && nodes[i].name == n
      by { AddNamesKeys(dic, nodes, k - 1); }
      if name in d {
        if name !in dic {
          var i :| 0 <= i < k - 1 && nodes[i].name == name;
        }
      } else {
        assert forall i :: 0 <= i < k - 1 ==> nodes[i].name in d;
      }
    }
  }

  /** The first k names are pairwise different exactly when the first k - 1
      are and the k-th is none of them. */
  lemma DistinctNamesNext(nodes: seq<Node>, k: nat)
    requires 0 < k <= |nodes|
    ensures DistinctNames(nodes, k) <==>
      DistinctNames(nodes, k - 1) && forall i :: 0 <= i < k - 1 ==> nodes[i].name != nodes[k - 1].name
  {
  }

  /** After a successful add, each of the first k names leads to its joint. */
  lemma {:induction false} AddNamesIndex(dic: map<string, nat>, nodes: seq<Node>, k: nat)
    requires k <= |nodes|
    requires forall n :: n in dic ==> dic[n] < |nodes|
    ensures var r := AddNames(dic, nodes, k);
      r.1 ==> forall i :: 0 <= i < k ==> nodes[i].name in r.0 && r.0[nodes[i].name] == i
  {
    if k > 0 {
      AddNamesIndex(dic, nodes, k - 1);
    }
  }

  /** After a successful add, the keys are the old ones and the k names. */
  lemma {:induction false} AddNamesKeys(dic: map<string, nat>, nodes: seq<Node>, k: nat)
    requires k <= |nodes|
    requires forall n :: n in dic ==> dic[n] < |nodes|
    ensures var r := AddNames(dic, nodes, k);
      r.1 ==> forall n :: n in r.0 <==> n in dic || exists i :: 0 <= i < k && nodes[i].name == n
  {
    if k > 0 {
      AddNamesKeys(dic, nodes, k - 1);
    }
  }
}
