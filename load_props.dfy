/** What the line loop of BVHParser.Load promises about single lines: blank
    lines and lines before HIERARCHY are skipped, the mode words only switch
    mode, End Site skips three lines, CHANNELS appends its channels in order,
    a sample line takes exactly one word per channel, an aborted load leaves
    IsEnable alone and a finished one indexes every joint by name. */
module LoadProps {
  import opened Options
  import opened Text
  import opened Skeleton
  import opened LoadSpec
  import opened SaveWords

  // ---------------------------------------------------------------------------
  // Blank lines
  // ---------------------------------------------------------------------------

  /** Every piece of a split of white space is white space. */
  lemma {:induction false} SplitWhite(s: string)
    requires AllWhiteSpace(s)
    ensures forall k :: 0 <= k < |Split(s)| ==> AllWhiteSpace(Split(s)[k])
    decreases |s|
  {
    if s != [] {
      SplitWhite(s[1..]);
      var rest := Split(s[1..]);
      if s[0] != ' ' {
        var first := [s[0]] + rest[0];
        forall j | 0 <= j < |first|
          ensures IsWhiteSpace(first[j])
        {
          if j > 0 {
            assert first[j] == rest[0][j - 1];
          }
        }
        assert Split(s) == [first] + rest[1..];
        forall k | 0 < k < |Split(s)|
          ensures AllWhiteSpace(Split(s)[k])
        {
          assert Split(s)[k] == rest[k];
        }
      } else {
        assert Split(s) == [""] + rest;
        forall k | 0 < k < |Split(s)|
          ensures AllWhiteSpace(Split(s)[k])
        {
          assert Split(s)[k] == rest[k - 1];
        }
      }
    }
  }

  /** Trimming white space leaves nothing. */
  lemma TrimWhite(s: string)
    requires AllWhiteSpace(s)
    ensures Trim(s) == ""
  {
  }

  /** Pieces that are all white space clean to no words. */
  lemma {:induction false} CleanWhite(parts: seq<string>)
    requires forall k :: 0 <= k < |parts| ==> AllWhiteSpace(parts[k])
    ensures Clean(parts) == []
  {
    if parts != [] {
      CleanWhite(parts[..|parts| - 1]);
      TrimWhite(parts[|parts| - 1]);
    }
  }

  /** A blank or all-white line has no words. */
  lemma BlankHasNoWords(line: string)
    requires AllWhiteSpace(line)
    ensures Tokenize(line) == []
  {
    SplitWhite(line);
    CleanWhite(Split(line));
  }

  /** The words of a file that starts with a blank line. */
  lemma BlankFirst(line: string, rest: seq<string>)
    requires AllWhiteSpace(line)
    ensures TokenizeLines([line] + rest) == [[]] + TokenizeLines(rest)
  {
    BlankHasNoWords(line);
    TokenizeLinesAppend([line], rest);
    TokenizeLinesOne(line);
  }

  /** A line without words is passed over. */
  lemma NoWordsSkipped(ff: FloatFormat, s: State, rest: seq<seq<string>>)
    requires Valid(s)
    ensures Run(ff, s, [[]] + rest) == Run(ff, s, rest)
  {
    assert ([[]] + rest)[1..] == rest;
  }

  /** A blank or all-white line is skipped by the line loop, whatever the mode. */
  lemma BlankLineSkipped(ff: FloatFormat, s: State, line: string, rest: seq<string>)
    requires Valid(s) && AllWhiteSpace(line)
    ensures Run(ff, s, TokenizeLines([line] + rest)) == Run(ff, s, TokenizeLines(rest))
  {
    BlankFirst(line, rest);
    NoWordsSkipped(ff, s, TokenizeLines(rest));
  }

  // ---------------------------------------------------------------------------
  // The mode machine
  // ---------------------------------------------------------------------------

  /** A line whose first word does not switch the mode. */
  predicate NoModeWord(w: seq<string>) {
    w == [] || (w[0] != "HIERARCHY" && w[0] != "MOTION")
  }

  /** While the mode is UNKNOWN, lines that switch no mode have no effect:
      the loop runs out as if they were not there. */
  lemma {:induction false} UnknownLinesIgnored(ff: FloatFormat, s: State, lines: seq<seq<string>>)
    requires Valid(s) && s.mode == Unknown
    requires forall k :: 0 <= k < |lines| ==> NoModeWord(lines[k])
    ensures Run(ff, s, lines) == Finish(s)
    decreases |lines|
  {
    if lines != [] {
      assert NoModeWord(lines[0]);
      assert Step(ff, s, lines) == Continue(s, lines[1..]);
      forall k | 0 <= k < |lines[1..]|
        ensures NoModeWord(lines[1..][k])
      {
        assert lines[1..][k] == lines[k + 1];
      }
      UnknownLinesIgnored(ff, s, lines[1..]);
    }
  }

  /** A first word HIERARCHY or MOTION switches the mode and does nothing else,
      whatever follows it on the line and whatever the mode was. */
  lemma ModeLine(ff: FloatFormat, s: State, w: seq<string>, rest: seq<seq<string>>)
    requires Valid(s) && w != [] && (w[0] == "HIERARCHY" || w[0] == "MOTION")
    ensures Run(ff, s, [w] + rest)
         == Run(ff, s.(mode := if w[0] == "HIERARCHY" then Hierarchy else Motion), rest)
  {
    assert ([w] + rest)[0] == w;
    assert ([w] + rest)[1..] == rest;
  }

  /** End Site in the hierarchy skips the three lines after it, whatever they
      hold, and changes nothing; at the end of the file it ends the loop. */
  lemma EndSiteSkips(ff: FloatFormat, s: State, lines: seq<seq<string>>)
    requires Valid(s) && s.mode == Hierarchy && lines != []
    requires |lines[0]| >= 2 && lines[0][0] == "End" && lines[0][1] == "Site"
    ensures |lines| >= 4 ==> Run(ff, s, lines) == Run(ff, s, lines[4..])
    ensures |lines| < 4 ==> Run(ff, s, lines) == Finish(s)
  {
    assert Step(ff, s, lines) == Continue(s, AfterEndSite(lines));
  }

  // ---------------------------------------------------------------------------
  // CHANNELS
  // ---------------------------------------------------------------------------

  /** The channels named by words, or None if one of them names none. */
  function ChannelsNamed(ws: seq<string>): (r: Option<seq<Channel>>)
    ensures r.Some? ==> |r.value| == |ws|
  {
    if ws == [] then Some([])
    else
      match ChannelFromName(ws[0])
      case None => None
      case Some(c) =>
        match ChannelsNamed(ws[1..])
        case None => None
        case Some(cs) => Some([c] + cs)
  }

  /** The target with channels cs appended to its list. */
  function Appended(s: State, cs: seq<Channel>): (r: State)
    requires Valid(s) && s.target.Some?
    ensures Valid(r)
  {
    var t := s.target.value;
    s.(nodes := s.nodes[t := s.nodes[t].(channels := s.nodes[t].channels + cs)])
  }

  /** The channel loop from word i + 2 to word n + 1: with every word there, it
      appends the named channels in word order when all of them are channel
      names, and answers false at the first word that is not. */
  lemma {:induction false} AddChannelsNamed(s: State, w: seq<string>, i: nat, n: nat)
    requires Valid(s) && s.target.Some? && i <= n && n + 2 <= |w|
    ensures var r := AddChannels(s, w, i, n);
      match ChannelsNamed(w[i + 2..n + 2])
      case Some(cs) => r == (Appended(s, cs), Done)
      case None => r.1 == Failed
    decreases n - i
  {
    var t := s.target.value;
    var ws := w[i + 2..n + 2];
    if i == n {
      assert ws == [];
      assert s.nodes[t].channels + [] == s.nodes[t].channels;
      assert s.nodes[t := s.nodes[t]] == s.nodes;
    } else {
      assert ws[0] == w[i + 2];
      assert ws[1..] == w[i + 3..n + 2];
      match ChannelFromName(w[i + 2])
      case None =>
      case Some(c) =>
        var s' := Appended(s, [c]);
        assert AddChannels(s, w, i, n) == AddChannels(s', w, i + 1, n);
        AddChannelsNamed(s', w, i + 1, n);
        match ChannelsNamed(ws[1..])
        case None =>
        case Some(cs) =>
          AppendedTwice(s, [c], cs);
    }
  }

  lemma AppendedTwice(s: State, a: seq<Channel>, b: seq<Channel>)
    requires Valid(s) && s.target.Some?
    ensures Appended(Appended(s, a), b) == Appended(s, a + b)
  {
    var t := s.target.value;
    assert s.nodes[t].channels + a + b == s.nodes[t].channels + (a + b);
  }

  /** CHANNELS n c1 .. cn with every word present: exactly n channels are
      appended to the target, in word order, if every ci is one of the six
      names; otherwise ParseHierarchy answers false. Words after cn are not
      looked at. */
  lemma ChannelsLine(s: State, w: seq<string>, n: Int32)
    requires Valid(s) && s.target.Some? && |w| >= 2 && w[0] == "CHANNELS"
    requires ParseInt(w[1]) == Some(n) && 0 <= n && n + 2 <= |w|
    ensures match ChannelsNamed(w[2..n + 2])
      case Some(cs) => |cs| == n && Channels(s, w) == (Appended(s, cs), Done)
      case None => Channels(s, w).1 == Failed
  {
    AddChannelsNamed(s, w, 0, n);
  }

  // ---------------------------------------------------------------------------
  // Sample lines
  // ---------------------------------------------------------------------------

  /** The channel loop of one joint looks at words at .. at + |chans| - 1 only. */
  lemma {:induction false} ReadSampleWords(ff: FloatFormat, chans: seq<Channel>, w: seq<string>, extra: seq<string>, at: nat, ch: nat, pos: Vec3, rot: Vec3)
    requires ch <= |chans| && (ch == |chans| || at + |chans| <= |w|)
    ensures ReadSample(ff, chans, w + extra, at, ch, pos, rot) == ReadSample(ff, chans, w, at, ch, pos, rot)
    decreases |chans| - ch
  {
    if ch < |chans| {
      assert (w + extra)[at + ch] == w[at + ch];
      var v := ff.parse(w[at + ch]);
      if v.Some? {
        var c := chans[ch];
        if c.IsPosition() {
          ReadSampleWords(ff, chans, w, extra, at, ch + 1, pos.With(c.Axis(), v.value), rot);
        } else {
          ReadSampleWords(ff, chans, w, extra, at, ch + 1, pos, rot.With(c.Axis(), v.value));
        }
      }
    }
  }

  /** The channels of joints k .. |nodes| - 1, counted. */
  function CountFrom(nodes: seq<Node>, k: nat): nat
    requires k <= |nodes|
    decreases |nodes| - k
  {
    if k == |nodes| then 0 else |nodes[k].channels| + CountFrom(nodes, k + 1)
  }

  /** Each word at .. at + count - 1 is there and is a number float.Parse
      accepts. */
  predicate AllParse(ff: FloatFormat, w: seq<string>, at: nat, count: nat)
    decreases count
  {
    count == 0 || (at < |w| && ff.parse(w[at]).Some? && AllParse(ff, w, at + 1, count - 1))
  }

  /** The last of words that all parse is there. */
  lemma {:induction false} AllParseLast(ff: FloatFormat, w: seq<string>, at: nat, count: nat)
    requires count > 0 && AllParse(ff, w, at, count)
    ensures at + count <= |w|
    decreases count
  {
    if count > 1 {
      AllParseLast(ff, w, at + 1, count - 1);
    }
  }

  /** A channel loop over words that all parse succeeds, and one that succeeds
      found every one of its words and parsed it. */
  lemma {:induction false} ReadSampleParses(ff: FloatFormat, chans: seq<Channel>, w: seq<string>, at: nat, ch: nat, pos: Vec3, rot: Vec3)
    requires ch <= |chans|
    ensures ReadSample(ff, chans, w, at, ch, pos, rot).Some? <==> AllParse(ff, w, at + ch, |chans| - ch)
    decreases |chans| - ch
  {
    if ch < |chans| && at + ch < |w| && ff.parse(w[at + ch]).Some? {
      var v := ff.parse(w[at + ch]).value;
      var c := chans[ch];
      if c.IsPosition() {
        ReadSampleParses(ff, chans, w, at, ch + 1, pos.With(c.Axis(), v), rot);
      } else {
        ReadSampleParses(ff, chans, w, at, ch + 1, pos, rot.With(c.Axis(), v));
      }
    }
  }

  /** Words that all parse for joints k on: AllParse splits at joint k. */
  lemma {:induction false} AllParseSplit(ff: FloatFormat, w: seq<string>, at: nat, n: nat, m: nat)
    ensures AllParse(ff, w, at, n + m) <==> AllParse(ff, w, at, n) && AllParse(ff, w, at + n, m)
    decreases n
  {
    if n > 0 {
      AllParseSplit(ff, w, at + 1, n - 1, m);
    }
  }

  /** The channel loop of one joint succeeds exactly when its words are there
      and all parse. */
  lemma ReadSampleOk(ff: FloatFormat, chans: seq<Channel>, w: seq<string>, at: nat)
    ensures ReadSample(ff, chans, w, at, 0, Zero, Zero).Some? <==> AllParse(ff, w, at, |chans|)
  {
    ReadSampleParses(ff, chans, w, at, 0, Zero, Zero);
  }

  /** The joints after joint k has read its sample from word at. */
  function Stored(ff: FloatFormat, nodes: seq<Node>, k: nat, w: seq<string>, at: nat, f: int): seq<Node>
    requires k < |nodes| && ReadSample(ff, nodes[k].channels, w, at, 0, Zero, Zero).Some?
  {
    var (pos, rot) := ReadSample(ff, nodes[k].channels, w, at, 0, Zero, Zero).value;
    nodes[k := nodes[k].SetMotionPos(f, pos).SetMotionRot(f, rot)]
  }

  /** One joint of the joint loop read, the loop goes on with the next, whose
      channel count is unchanged. */
  lemma FillFromNext(ff: FloatFormat, nodes: seq<Node>, k: nat, w: seq<string>, at: nat, f: int)
    requires k < |nodes| && ReadSample(ff, nodes[k].channels, w, at, 0, Zero, Zero).Some?
    ensures FillFrom(ff, nodes, k, w, at, f)
         == FillFrom(ff, Stored(ff, nodes, k, w, at, f), k + 1, w, at + |nodes[k].channels|, f)
    ensures CountFrom(Stored(ff, nodes, k, w, at, f), k + 1) == CountFrom(nodes, k + 1)
  {
    CountSame(nodes, Stored(ff, nodes, k, w, at, f), k + 1);
  }

  /** The joint loop from joint k reading from word at succeeds exactly when
      the next CountFrom(nodes, k) words are there and all parse. */
  lemma {:induction false} FillFromOk(ff: FloatFormat, nodes: seq<Node>, k: nat, w: seq<string>, at: nat, f: int)
    requires k <= |nodes|
    ensures FillFrom(ff, nodes, k, w, at, f).1 <==> AllParse(ff, w, at, CountFrom(nodes, k))
    decreases |nodes| - k
  {
    if k < |nodes| {
      if ReadSample(ff, nodes[k].channels, w, at, 0, Zero, Zero).Some? {
        FillFromOk(ff, Stored(ff, nodes, k, w, at, f), k + 1, w, at + |nodes[k].channels|, f);
      }
      FillFromStep(ff, nodes, k, w, at, f);
    }
  }

  /** One step of FillFromOk: the claim for joint k follows from the claim for
      the joints after it. */
  lemma FillFromStep(ff: FloatFormat, nodes: seq<Node>, k: nat, w: seq<string>, at: nat, f: int)
    requires k < |nodes|
    requires ReadSample(ff, nodes[k].channels, w, at, 0, Zero, Zero).Some? ==>
      (FillFrom(ff, Stored(ff, nodes, k, w, at, f), k + 1, w, at + |nodes[k].channels|, f).1 <==>
       AllParse(ff, w, at + |nodes[k].channels|, CountFrom(Stored(ff, nodes, k, w, at, f), k + 1)))
    ensures FillFrom(ff, nodes, k, w, at, f).1 <==> AllParse(ff, w, at, CountFrom(nodes, k))
  {
    JointCount(ff, nodes, k, w, at);
    if ReadSample(ff, nodes[k].channels, w, at, 0, Zero, Zero).Some? {
      FillFromNext(ff, nodes, k, w, at, f);
    }
  }

  /** The words of joints k on all parse when those of joint k do and those
      of the joints after it do. */
  lemma JointCount(ff: FloatFormat, nodes: seq<Node>, k: nat, w: seq<string>, at: nat)
    requires k < |nodes|
    ensures AllParse(ff, w, at, CountFrom(nodes, k))
        <==> ReadSample(ff, nodes[k].channels, w, at, 0, Zero, Zero).Some?
             && AllParse(ff, w, at + |nodes[k].channels|, CountFrom(nodes, k + 1))
  {
    AllParseSplit(ff, w, at, |nodes[k].channels|, CountFrom(nodes, k + 1));
    ReadSampleOk(ff, nodes[k].channels, w, at);
  }

  /** Words after the CountFrom(nodes, k) the joint loop reads change nothing
      it stores. */
  lemma {:induction false} FillFromExtra(ff: FloatFormat, nodes: seq<Node>, k: nat, w: seq<string>, extra: seq<string>, at: nat, f: int)
    requires k <= |nodes| && AllParse(ff, w, at, CountFrom(nodes, k))
    ensures FillFrom(ff, nodes, k, w + extra, at, f) == FillFrom(ff, nodes, k, w, at, f)
    decreases |nodes| - k
  {
    if k < |nodes| {
      var chans := nodes[k].channels;
      assert CountFrom(nodes, k) == |chans| + CountFrom(nodes, k + 1);
      AllParseSplit(ff, w, at, |chans|, CountFrom(nodes, k + 1));
      ReadSampleOk(ff, chans, w, at);
      if |chans| > 0 {
        AllParseLast(ff, w, at, |chans|);
      }
      ReadSampleWords(ff, chans, w, extra, at, 0, Zero, Zero);
      FillFromNext(ff, nodes, k, w, at, f);
      FillFromNext(ff, nodes, k, w + extra, at, f);
      FillFromExtra(ff, Stored(ff, nodes, k, w, at, f), k + 1, w, extra, at + |chans|, f);
    }
  }

  /** Until Frames and Frame Time have both been read, a MOTION line is only
      matched against the header patterns: no sample is stored and the frame
      counter stays; a line that matches none of them changes nothing. */
  lemma HeaderLine(ff: FloatFormat, s: State, w: seq<string>)
    requires Valid(s) && |w| >= 1 && (!s.isFrameNum || !s.isFrameSpan)
    ensures var (t, st) := ParseMotionSpec(ff, s, w);
      t.nodes == s.nodes && t.motionNum == s.motionNum &&
      (w[0] !in {"Frames:", "Frames", "Frame"} ==> (t, st) == (s, Done))
  {
  }

  /** After the header, a MOTION line is a sample line: it succeeds exactly
      when the first CountFrom(nodes, 0) words, one per channel of every joint
      in list order, are there and all parse; then the frame counter moves on
      by one, and words after those change nothing. */
  lemma SampleLine(ff: FloatFormat, s: State, w: seq<string>, extra: seq<string>)
    requires Valid(s) && |w| >= 1 && s.isFrameNum && s.isFrameSpan
    ensures ParseMotionSpec(ff, s, w).1 == Done <==> AllParse(ff, w, 0, CountFrom(s.nodes, 0))
    ensures ParseMotionSpec(ff, s, w).1 == Done ==>
      ParseMotionSpec(ff, s, w).0.motionNum == Inc32(s.motionNum) &&
      ParseMotionSpec(ff, s, w + extra) == ParseMotionSpec(ff, s, w)
  {
    FillFromOk(ff, s.nodes, 0, w, 0, s.motionNum);
    if AllParse(ff, w, 0, CountFrom(s.nodes, 0)) {
      FillFromExtra(ff, s.nodes, 0, w, extra, 0, s.motionNum);
    }
  }

  /** Joints that keep their channel lists keep their channel count. */
  lemma {:induction false} CountSame(a: seq<Node>, b: seq<Node>, k: nat)
    requires |a| == |b| && k <= |a|
    requires forall i :: k <= i < |a| ==> a[i].channels == b[i].channels
    ensures CountFrom(a, k) == CountFrom(b, k)
    decreases |a| - k
  {
    if k < |a| {
      CountSame(a, b, k + 1);
    }
  }

  // ---------------------------------------------------------------------------
  // IsEnable and the name index
  // ---------------------------------------------------------------------------

  /** The channel loop only touches the joint list. */
  lemma {:induction false} AddChannelsKeepsFlags(s: State, w: seq<string>, i: nat, n: int)
    requires Valid(s)
    ensures AddChannels(s, w, i, n).0.isEnable == s.isEnable
    ensures AddChannels(s, w, i, n).0.dic == s.dic
    decreases n - i
  {
    if i < n && i + 2 < |w| && ChannelFromName(w[i + 2]).Some? && s.target.Some? {
      var t := s.target.value;
      var c := ChannelFromName(w[i + 2]).value;
      AddChannelsKeepsFlags(s.(nodes := s.nodes[t := s.nodes[t].(channels := s.nodes[t].channels + [c])]), w, i + 1, n);
    }
  }

  /** No HIERARCHY line touches IsEnable or the name index. */
  lemma HierarchyKeepsEnable(ff: FloatFormat, s: State, w: seq<string>)
    requires Valid(s) && |w| >= 1
    ensures ParseHierarchySpec(ff, s, w).0.isEnable == s.isEnable
    ensures ParseHierarchySpec(ff, s, w).0.dic == s.dic
  {
    if w[0] == "CHANNELS" && |w| >= 2 && ParseInt(w[1]).Some? {
      AddChannelsKeepsFlags(s, w, 0, ParseInt(w[1]).value);
    }
  }

  /** No pass of the line loop touches IsEnable or the name index, and none
      stops the loop with success. */
  lemma StepKeepsEnable(ff: FloatFormat, s: State, lines: seq<seq<string>>)
    requires Valid(s) && lines != []
    ensures Step(ff, s, lines).state.isEnable == s.isEnable
    ensures Step(ff, s, lines).state.dic == s.dic
    ensures Step(ff, s, lines).Stop? ==> Step(ff, s, lines).status != Done
  {
    var w := lines[0];
    if w == [] || w[0] == "HIERARCHY" || w[0] == "MOTION" {
    } else if s.mode == Hierarchy {
      if w[0] != "End" {
        HierarchyKeepsEnable(ff, s, w);
      } else if |w| >= 2 && w[1] != "Site" {
        HierarchyKeepsEnable(ff, s, w);
      }
    } else if s.mode == Motion {
      MotionKeepsEnable(ff, s, w);
    }
  }

  /** No MOTION line touches IsEnable or the name index. */
  lemma MotionKeepsEnable(ff: FloatFormat, s: State, w: seq<string>)
    requires Valid(s) && |w| >= 1
    ensures ParseMotionSpec(ff, s, w).0.isEnable == s.isEnable
    ensures ParseMotionSpec(ff, s, w).0.dic == s.dic
  {
  }

  /** IsEnable is set only when the loop runs out of lines and every name is
      new to the index; a load that stops early or meets a name twice leaves
      it as it was, so a failed Load does not clear it. */
  lemma {:induction false} RunEnable(ff: FloatFormat, s: State, lines: seq<seq<string>>)
    requires Valid(s)
    ensures var (t, st) := Run(ff, s, lines);
      (st == Done ==> t.isEnable) && (st != Done ==> t.isEnable == s.isEnable)
    decreases |lines|
  {
    if lines != [] {
      StepKeepsEnable(ff, s, lines);
      match Step(ff, s, lines)
      case Continue(s', rest) => RunEnable(ff, s', rest);
      case Stop(_, _) =>
    }
  }

  /** Load(string) does not reset IsEnable: a load that fails keeps the value
      an earlier load left. */
  lemma LoadEnable(ff: FloatFormat, s: State, lines: seq<string>)
    requires Valid(s)
    ensures var (t, st) := Load(ff, s, lines);
      (st == Done ==> t.isEnable) && (st != Done ==> t.isEnable == s.isEnable)
  {
    RunEnable(ff, Reset(s), TokenizeLines(lines));
  }

  /** A finished loop has indexed every joint under its name, and nothing
      else; a name met twice makes it throw. */
  lemma FinishIndex(s: State)
    requires Valid(s) && s.dic == map[]
    ensures var (t, st) := Finish(s);
      (st == Done <==> DistinctNames(s.nodes, |s.nodes|)) &&
      (st == Done ==> forall n :: n in t.dic <==> exists i :: 0 <= i < |s.nodes| && s.nodes[i].name == n) &&
      (st == Done ==> forall i :: 0 <= i < |s.nodes| ==> s.nodes[i].name in t.dic && t.dic[s.nodes[i].name] == i)
  {
    AddNamesOk(s.dic, s.nodes, |s.nodes|);
    AddNamesKeys(s.dic, s.nodes, |s.nodes|);
    AddNamesIndex(s.dic, s.nodes, |s.nodes|);
  }

  /** A loop that ends in success has met every name once, and the index it
      leaves maps each joint's name to that joint. */
  lemma {:induction false} RunDoneIndex(ff: FloatFormat, s: State, lines: seq<seq<string>>)
    requires Valid(s) && s.dic == map[]
    ensures var (t, st) := Run(ff, s, lines);
      st == Done ==>
        DistinctNames(t.nodes, |t.nodes|) &&
        forall i :: 0 <= i < |t.nodes| ==> t.nodes[i].name in t.dic && t.dic[t.nodes[i].name] == i
    decreases |lines|
  {
    if lines == [] {
      FinishIndex(s);
    } else {
      StepKeepsEnable(ff, s, lines);
      match Step(ff, s, lines)
      case Continue(s', rest) => RunDoneIndex(ff, s', rest);
      case Stop(_, _) =>
    }
  }

  /** After a Load that succeeded the names are pairwise different and the
      index finds every joint under its own name. */
  lemma LoadDoneIndex(ff: FloatFormat, s: State, lines: seq<string>)
    requires Valid(s)
    ensures var (t, st) := Load(ff, s, lines);
      st == Done ==>
        t.isEnable && DistinctNames(t.nodes, |t.nodes|) &&
        forall i :: 0 <= i < |t.nodes| ==> t.nodes[i].name in t.dic && t.dic[t.nodes[i].name] == i
  {
    LoadEnable(ff, s, lines);
    RunDoneIndex(ff, Reset(s), TokenizeLines(lines));
  }

  /** Every load leaves an index whose names lead to joints of that name,
      whether it finished, failed or threw. */
  lemma {:induction false} RunIndexed(ff: FloatFormat, s: State, lines: seq<seq<string>>)
    requires Valid(s) && s.dic == map[]
    ensures Indexed(Run(ff, s, lines).0)
    decreases |lines|
  {
    if lines == [] {
      AddNamesNamed(s.dic, s.nodes, |s.nodes|);
      assert Run(ff, s, lines).0.dic == AddNames(s.dic, s.nodes, |s.nodes|).0;
    } else {
      StepKeepsEnable(ff, s, lines);
      match Step(ff, s, lines)
      case Continue(s', rest) => RunIndexed(ff, s', rest);
      case Stop(_, _) =>
    }
  }

  lemma LoadIndexed(ff: FloatFormat, s: State, lines: seq<string>)
    requires Valid(s)
    ensures Indexed(Load(ff, s, lines).0)
  {
    RunIndexed(ff, Reset(s), TokenizeLines(lines));
  }
}
