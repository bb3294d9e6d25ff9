/** Reading back the motion block Save writes: every frame line fills, joint
    by joint, the components that the joint's channels name. */
module ReloadMotion {
  import opened Options
  import opened Text
  import opened Skeleton
  import opened LoadSpec
  import opened SaveSpec
  import opened Reload
  import opened SaveWords

  // ---------------------------------------------------------------------------
  // What a joint's channels let through
  // ---------------------------------------------------------------------------

  /** Some channel in cs is a position channel (pos) or a rotation channel
      (!pos) on axis e. */
  predicate Covered(cs: seq<Channel>, pos: bool, e: Element) {
    cs != [] && ((cs[0].IsPosition() == pos && cs[0].Axis() == e) || Covered(cs[1..], pos, e))
  }

  /** v with every component that cs names (as position or rotation channels,
      by pos) taken from target. */
  function Cover(v: Vec3, cs: seq<Channel>, pos: bool, target: Vec3): (r: Vec3)
    ensures forall e :: r.Get(e) == if Covered(cs, pos, e) then target.Get(e) else v.Get(e)
  {
    Vec3(if Covered(cs, pos, X) then target.x else v.x,
         if Covered(cs, pos, Y) then target.y else v.y,
         if Covered(cs, pos, Z) then target.z else v.z)
  }

  /** The position sample of joint n at frame f as a frame line carries it:
      components without a channel read 0. */
  function SeenPos(n: Node, f: int): Vec3 {
    Cover(Zero, n.channels, true, n.GetMotionPos(f))
  }

  function SeenRot(n: Node, f: int): Vec3 {
    Cover(Zero, n.channels, false, n.GetMotionRot(f))
  }

  /** Reading the first channel of cs and then the rest covers what cs covers. */
  lemma CoverStep(v: Vec3, cs: seq<Channel>, pos: bool, target: Vec3)
    requires cs != []
    ensures Cover(v, cs, pos, target)
         == Cover(if cs[0].IsPosition() == pos then v.With(cs[0].Axis(), target.Get(cs[0].Axis())) else v, cs[1..], pos, target)
  {
    var v' := if cs[0].IsPosition() == pos then v.With(cs[0].Axis(), target.Get(cs[0].Axis())) else v;
    var a := Cover(v, cs, pos, target);
    var b := Cover(v', cs[1..], pos, target);
    assert a.Get(X) == b.Get(X) && a.Get(Y) == b.Get(Y) && a.Get(Z) == b.Get(Z);
  }

  /** Nothing covered leaves v as it is. */
  lemma CoverNone(v: Vec3, pos: bool, target: Vec3)
    ensures Cover(v, [], pos, target) == v
  {
  }

  /** Word at + k of w reads back as the value of channel k of joint n at
      frame f. */
  predicate WordAt(ff: FloatFormat, n: Node, f: int, w: seq<string>, at: nat, k: nat)
    requires k < |n.channels|
  {
    at + k < |w| && ff.parse(w[at + k]) == Some(ChannelValue(n, f, n.channels[k]))
  }

  /** The channel loop of one joint reads back the components its channels
      name, when each of its words is the written value of its channel. */
  lemma {:induction false} ReadSampleBack(ff: FloatFormat, n: Node, f: int, w: seq<string>, at: nat, ch: nat, pos: Vec3, rot: Vec3)
    requires ch <= |n.channels|
    requires forall k :: ch <= k < |n.channels| ==> WordAt(ff, n, f, w, at, k)
    ensures ReadSample(ff, n.channels, w, at, ch, pos, rot)
         == Some((Cover(pos, n.channels[ch..], true, n.GetMotionPos(f)), Cover(rot, n.channels[ch..], false, n.GetMotionRot(f))))
    decreases |n.channels| - ch
  {
    var cs := n.channels;
    if ch == |cs| {
      assert cs[ch..] == [];
      CoverNone(pos, true, n.GetMotionPos(f));
      CoverNone(rot, false, n.GetMotionRot(f));
    } else {
      var c := cs[ch];
      var v := ChannelValue(n, f, c);
      assert WordAt(ff, n, f, w, at, ch);
      assert cs[ch..][0] == c && cs[ch..][1..] == cs[ch + 1..];
      CoverStep(pos, cs[ch..], true, n.GetMotionPos(f));
      CoverStep(rot, cs[ch..], false, n.GetMotionRot(f));
      var pos' := if c.IsPosition() then pos.With(c.Axis(), v) else pos;
      var rot' := if c.IsPosition() then rot else rot.With(c.Axis(), v);
      ReadSampleBack(ff, n, f, w, at, ch + 1, pos', rot');
    }
  }

  // ---------------------------------------------------------------------------
  // One frame line
  // ---------------------------------------------------------------------------

  /** Two joint lists with the same channels, joint by joint. */
  predicate SameChannels(a: seq<Node>, b: seq<Node>) {
    |a| == |b| && forall i :: 0 <= i < |a| ==> a[i].channels == b[i].channels
  }

  /** Joint n with frame f set to what the frame line of o carries. */
  function Stored(n: Node, o: Node, f: int): Node {
    n.SetMotionPos(f, SeenPos(o, f)).SetMotionRot(f, SeenRot(o, f))
  }

  /** Storing a frame changes no channel list. */
  lemma StoredChannels(n: Node, o: Node, f: int)
    ensures Stored(n, o, f).channels == n.channels
  {
  }

  /** cur with frame f of the joints from k on set to what the frame line of
      orig carries. */
  function StoreFrame(cur: seq<Node>, orig: seq<Node>, f: int, k: nat): (r: seq<Node>)
    requires |cur| == |orig|
    ensures |r| == |cur|
  {
    seq(|cur|, i requires 0 <= i < |cur| =>
      if i < k then cur[i] else Stored(cur[i], orig[i], f))
  }

  /** Joint k's words in a frame line Save wrote read back as its values. */
  lemma FrameWordsAt(ff: FloatFormat, orig: seq<Node>, f: int, k: nat)
    requires k < |orig| && FrameShown(ff, orig, f)
    ensures forall ch :: 0 <= ch < |orig[k].channels| ==>
      WordAt(ff, orig[k], f, FrameValues(ff, orig, f, |orig|), ChannelCount(orig, k), ch)
  {
    forall ch | 0 <= ch < |orig[k].channels|
      ensures WordAt(ff, orig[k], f, FrameValues(ff, orig, f, |orig|), ChannelCount(orig, k), ch)
    {
      FrameValuesAt(ff, orig, f, k, |orig|, ch);
    }
  }

  /** Joint k's sample read from a frame line Save wrote is what the line
      carries. */
  lemma SampleBack(ff: FloatFormat, orig: seq<Node>, f: int, k: nat)
    requires k < |orig| && FrameShown(ff, orig, f)
    ensures ReadSample(ff, orig[k].channels, FrameValues(ff, orig, f, |orig|), ChannelCount(orig, k), 0, Zero, Zero)
         == Some((SeenPos(orig[k], f), SeenRot(orig[k], f)))
  {
    FrameWordsAt(ff, orig, f, k);
    ReadSampleBack(ff, orig[k], f, FrameValues(ff, orig, f, |orig|), ChannelCount(orig, k), 0, Zero, Zero);
    assert orig[k].channels[0..] == orig[k].channels;
  }

  /** Storing joint k first and then the joints after it stores them all. */
  lemma StoreStep(cur: seq<Node>, orig: seq<Node>, f: int, k: nat)
    requires SameChannels(cur, orig) && k < |orig|
    ensures SameChannels(cur[k := Stored(cur[k], orig[k], f)], orig)
    ensures StoreFrame(cur[k := Stored(cur[k], orig[k], f)], orig, f, k + 1) == StoreFrame(cur, orig, f, k)
  {
    var node := Stored(cur[k], orig[k], f);
    var a := StoreFrame(cur[k := node], orig, f, k + 1);
    var b := StoreFrame(cur, orig, f, k);
    forall i | 0 <= i < |cur|
      ensures a[i] == b[i]
    {
    }
  }

  /** One pass of the joint loop of ParseMotion that reads a sample. */
  lemma FillStep(ff: FloatFormat, nodes: seq<Node>, k: nat, w: seq<string>, at: nat, f: int, pos: Vec3, rot: Vec3, node: Node, next: nat)
    requires k < |nodes| && ReadSample(ff, nodes[k].channels, w, at, 0, Zero, Zero) == Some((pos, rot))
    requires node == nodes[k].SetMotionPos(f, pos).SetMotionRot(f, rot) && next == at + |nodes[k].channels|
    ensures FillFrom(ff, nodes, k, w, at, f) == FillFrom(ff, nodes[k := node], k + 1, w, next, f)
  {
  }

  /** The joint loop of ParseMotion, on a frame line Save wrote for orig,
      stores each joint's sample as the line carries it and succeeds. */
  lemma {:induction false} FillBack(ff: FloatFormat, orig: seq<Node>, cur: seq<Node>, f: int, k: nat)
    requires SameChannels(cur, orig) && k <= |orig| && FrameShown(ff, orig, f)
    ensures FillFrom(ff, cur, k, FrameValues(ff, orig, f, |orig|), ChannelCount(orig, k), f) == (StoreFrame(cur, orig, f, k), true)
    decreases |orig| - k, 1
  {
    if k == |orig| {
      assert StoreFrame(cur, orig, f, k) == cur;
    } else {
      FillMore(ff, orig, cur, f, k);
    }
  }

  /** The step of FillBack: joint k, then the joints after it. */
  lemma {:induction false} FillMore(ff: FloatFormat, orig: seq<Node>, cur: seq<Node>, f: int, k: nat)
    requires SameChannels(cur, orig) && k < |orig| && FrameShown(ff, orig, f)
    ensures FillFrom(ff, cur, k, FrameValues(ff, orig, f, |orig|), ChannelCount(orig, k), f) == (StoreFrame(cur, orig, f, k), true)
    decreases |orig| - k, 0
  {
    JointStep(ff, orig, cur, f, k);
    FillBack(ff, orig, cur[k := Stored(cur[k], orig[k], f)], f, k + 1);
  }

  /** Joint k read from a frame line Save wrote, before the joints after it. */
  lemma JointStep(ff: FloatFormat, orig: seq<Node>, cur: seq<Node>, f: int, k: nat)
    requires SameChannels(cur, orig) && k < |orig| && FrameShown(ff, orig, f)
    ensures SameChannels(cur[k := Stored(cur[k], orig[k], f)], orig)
    ensures StoreFrame(cur[k := Stored(cur[k], orig[k], f)], orig, f, k + 1) == StoreFrame(cur, orig, f, k)
    ensures FillFrom(ff, cur, k, FrameValues(ff, orig, f, |orig|), ChannelCount(orig, k), f)
         == FillFrom(ff, cur[k := Stored(cur[k], orig[k], f)], k + 1, FrameValues(ff, orig, f, |orig|), ChannelCount(orig, k + 1), f)
  {
    var w := FrameValues(ff, orig, f, |orig|);
    SampleBack(ff, orig, f, k);
    StoreStep(cur, orig, f, k);
    assert cur[k].channels == orig[k].channels;
    FillStep(ff, cur, k, w, ChannelCount(orig, k), f, SeenPos(orig[k], f), SeenRot(orig[k], f), Stored(cur[k], orig[k], f), ChannelCount(orig, k + 1));
  }

  // ---------------------------------------------------------------------------
  // The frame lines
  // ---------------------------------------------------------------------------

  /** The joint list base after the first k frame lines of orig. */
  function Loaded(base: seq<Node>, orig: seq<Node>, k: nat): (r: seq<Node>)
    requires |base| == |orig|
    ensures |r| == |base|
  {
    if k == 0 then base else StoreFrame(Loaded(base, orig, k - 1), orig, k - 1, 0)
  }

  /** Joint r is joint b of the list before the frame lines, with the
      channels of o, once the first k frame lines of o have been read. */
  ghost predicate Tracks(b: Node, r: Node, o: Node, k: nat) {
    r == b.(motionPos := r.motionPos, motionRot := r.motionRot) && r.channels == o.channels &&
    forall g :: r.GetMotionPos(g) == (if 0 <= g < k then SeenPos(o, g) else b.GetMotionPos(g)) &&
                r.GetMotionRot(g) == (if 0 <= g < k then SeenRot(o, g) else b.GetMotionRot(g))
  }

  /** Reading frame k moves a joint from k frames read to k + 1. */
  lemma TracksStep(b: Node, r: Node, o: Node, k: nat)
    requires Tracks(b, r, o, k)
    ensures Tracks(b, Stored(r, o, k), o, k + 1)
  {
  }

  /** After k frame lines every joint keeps its shape, frames 0 .. k-1 read
      what the lines carried and every other frame reads as before. */
  lemma {:induction false} LoadedReads(base: seq<Node>, orig: seq<Node>, k: nat)
    requires SameChannels(base, orig)
    ensures forall i :: 0 <= i < |base| ==> Tracks(base[i], Loaded(base, orig, k)[i], orig[i], k)
  {
    if k == 0 {
      LoadedNone(base, orig);
    } else {
      LoadedReads(base, orig, k - 1);
      LoadedMore(base, orig, k - 1, k);
    }
  }

  /** Before any frame line is read every joint reads as it did. */
  lemma LoadedNone(base: seq<Node>, orig: seq<Node>)
    requires SameChannels(base, orig)
    ensures forall i :: 0 <= i < |base| ==> Tracks(base[i], Loaded(base, orig, 0)[i], orig[i], 0)
  {
    forall i | 0 <= i < |base|
      ensures Tracks(base[i], base[i], orig[i], 0)
    {
    }
  }

  /** One more frame line read, for every joint. */
  lemma LoadedMore(base: seq<Node>, orig: seq<Node>, j: nat, k: nat)
    requires SameChannels(base, orig) && k == j + 1
    requires forall i :: 0 <= i < |base| ==> Tracks(base[i], Loaded(base, orig, j)[i], orig[i], j)
    ensures forall i :: 0 <= i < |base| ==> Tracks(base[i], Loaded(base, orig, k)[i], orig[i], k)
  {
    var prev := Loaded(base, orig, j);
    assert Loaded(base, orig, k) == StoreFrame(prev, orig, j, 0);
    forall i | 0 <= i < |base|
      ensures Tracks(base[i], Loaded(base, orig, k)[i], orig[i], k)
    {
      TracksStep(base[i], prev[i], orig[i], j);
    }
  }

  /** Reading frame lines changes no joint's channels. */
  lemma {:induction false} LoadedChannels(base: seq<Node>, orig: seq<Node>, k: nat)
    requires SameChannels(base, orig)
    ensures SameChannels(Loaded(base, orig, k), orig)
  {
    if k > 0 {
      LoadedChannels(base, orig, k - 1);
      var prev := Loaded(base, orig, k - 1);
      assert Loaded(base, orig, k) == StoreFrame(prev, orig, k - 1, 0);
      forall i | 0 <= i < |base|
        ensures Loaded(base, orig, k)[i].channels == orig[i].channels
      {
        assert Loaded(base, orig, k)[i] == Stored(prev[i], orig[i], k - 1);
        assert Stored(prev[i], orig[i], k - 1).channels == prev[i].channels by {
          StoredChannels(prev[i], orig[i], k - 1);
        }
      }
    }
  }

  /** The reader right after the header of the motion block. */
  predicate Headed(m: State) {
    Valid(m) && m.mode == Motion && m.isFrameNum && m.isFrameSpan && m.motionNum == 0
  }

  /** The reader m once the first k frame lines Save wrote for orig are
      stored. */
  function After(m: State, orig: seq<Node>, k: nat): State
    requires SameChannels(m.nodes, orig) && k <= Int32Max
  {
    m.(nodes := Loaded(m.nodes, orig, k), motionNum := k)
  }

  /** Before any frame line the reader is as the header left it. */
  lemma AfterNone(m: State, orig: seq<Node>)
    requires SameChannels(m.nodes, orig) && m.motionNum == 0
    ensures After(m, orig, 0) == m
  {
  }

  /** Storing frame lines keeps every joint reference in range. */
  lemma AfterValid(m: State, orig: seq<Node>, k: nat)
    requires Valid(m) && SameChannels(m.nodes, orig) && k <= Int32Max
    ensures Valid(After(m, orig, k))
  {
    var r := Loaded(m.nodes, orig, k);
    LoadedReads(m.nodes, orig, k);
    forall i | 0 <= i < |r|
      ensures r[i].parent == m.nodes[i].parent
    {
      assert Tracks(m.nodes[i], r[i], orig[i], k);
    }
  }

  /** The joint loop on frame line j Save wrote for orig, after the first j,
      stores it. */
  lemma FrameFill(ff: FloatFormat, m: State, orig: seq<Node>, j: nat, k: nat)
    requires SameChannels(m.nodes, orig) && k == j + 1 && k <= Int32Max && FrameShown(ff, orig, j)
    ensures FillFrom(ff, After(m, orig, j).nodes, 0, FrameValues(ff, orig, j, |orig|), 0, After(m, orig, j).motionNum)
         == (After(m, orig, k).nodes, true)
  {
    LoadedChannels(m.nodes, orig, j);
    LoadedNext(m.nodes, orig, j, k);
    FillBack(ff, orig, Loaded(m.nodes, orig, j), j, 0);
    assert ChannelCount(orig, 0) == 0;
  }

  /** Frame line j stored after the first j. */
  lemma LoadedNext(base: seq<Node>, orig: seq<Node>, j: nat, k: nat)
    requires |base| == |orig| && k == j + 1
    ensures Loaded(base, orig, k) == StoreFrame(Loaded(base, orig, j), orig, j, 0)
  {
    LoadedUnfold(base, orig, j);
  }

  lemma LoadedUnfold(base: seq<Node>, orig: seq<Node>, j: nat)
    requires |base| == |orig|
    ensures Loaded(base, orig, j + 1) == StoreFrame(Loaded(base, orig, j), orig, j, 0)
  {
  }

  /** The state SampleLine leaves after frame line j is the reader after
      j + 1 frame lines. */
  lemma AfterStep(ff: FloatFormat, m: State, orig: seq<Node>, j: nat, k: nat, w: seq<string>)
    requires SameChannels(m.nodes, orig) && k == j + 1 && k <= Int32Max
    requires FillFrom(ff, After(m, orig, j).nodes, 0, w, 0, After(m, orig, j).motionNum) == (After(m, orig, k).nodes, true)
    ensures After(m, orig, k) == After(m, orig, j).(nodes := FillFrom(ff, After(m, orig, j).nodes, 0, w, 0, After(m, orig, j).motionNum).0,
                                                   motionNum := Inc32(After(m, orig, j).motionNum))
  {
  }

  /** A frame line written exactly with some channel opens with a plain word. */
  lemma FrameOpens(ff: FloatFormat, orig: seq<Node>, j: nat)
    requires FrameShown(ff, orig, j) && ChannelCount(orig, |orig|) > 0
    ensures var w := FrameValues(ff, orig, j, |orig|); w != [] && w[0] != "HIERARCHY" && w[0] != "MOTION"
  {
    FrameValuesCount(ff, orig, j, |orig|);
    FrameValuesPlain(ff, orig, j, |orig|);
    assert Plain(FrameValues(ff, orig, j, |orig|)[0]);
  }

  /** Frame line j Save wrote for orig, read after the first j, is stored as
      frame j. */
  lemma FrameLineRead(ff: FloatFormat, orig: seq<Node>, m: State, j: nat, k: nat)
    requires Headed(m) && SameChannels(m.nodes, orig) && k == j + 1 && k <= Int32Max
    requires FrameShown(ff, orig, j) && ChannelCount(orig, |orig|) > 0
    ensures Reads(ff, After(m, orig, j), [FrameValues(ff, orig, j, |orig|)], After(m, orig, k))
  {
    AfterValid(m, orig, j);
    FrameFill(ff, m, orig, j, k);
    AfterStep(ff, m, orig, j, k, FrameValues(ff, orig, j, |orig|));
    FrameOpens(ff, orig, j);
    SampleLine(ff, After(m, orig, j), FrameValues(ff, orig, j, |orig|), After(m, orig, k));
  }

  /** The first n frame lines are the first n - 1 and line n - 1. */
  lemma FrameWordsSnoc(ff: FloatFormat, orig: seq<Node>, n: nat)
    requires n > 0
    ensures FrameWords(ff, orig, n) == FrameWords(ff, orig, n - 1) + [FrameValues(ff, orig, n - 1, |orig|)]
  {
  }

  /** The first n frame lines Save wrote for orig, read right after the
      header, store frames 0 .. n-1 and count them. */
  lemma {:induction false} FramesRead(ff: FloatFormat, orig: seq<Node>, m: State, n: nat)
    requires Headed(m) && SameChannels(m.nodes, orig) && n <= Int32Max
    requires SamplesShown(ff, orig, n) && ChannelCount(orig, |orig|) > 0
    ensures Reads(ff, m, FrameWords(ff, orig, n), After(m, orig, n))
    decreases n, 1
  {
    if n == 0 {
      assert FrameWords(ff, orig, 0) == [];
      AfterNone(m, orig);
      ReadsNothing(ff, m);
    } else {
      FramesMore(ff, orig, m, n - 1, n);
    }
  }

  /** The step of FramesRead: the first j lines, then line j. */
  lemma {:induction false} FramesMore(ff: FloatFormat, orig: seq<Node>, m: State, j: nat, n: nat)
    requires Headed(m) && SameChannels(m.nodes, orig) && n == j + 1 && n <= Int32Max
    requires SamplesShown(ff, orig, n) && ChannelCount(orig, |orig|) > 0
    ensures Reads(ff, m, FrameWords(ff, orig, n), After(m, orig, n))
    decreases n, 0
  {
    FramesRead(ff, orig, m, j);
    assert FrameShown(ff, orig, j);
    FrameLineRead(ff, orig, m, j, n);
    FrameWordsSnoc(ff, orig, n);
    ThenReads(ff, m, FrameWords(ff, orig, j), After(m, orig, j), [FrameValues(ff, orig, j, |orig|)], After(m, orig, n));
  }

  /** Without any channel every frame line is blank, and the frame lines
      j .. n-1 change nothing. */
  lemma {:induction false} BlankFramesRead(ff: FloatFormat, orig: seq<Node>, m: State, j: nat, n: nat)
    requires Valid(m) && j <= n && ChannelCount(orig, |orig|) == 0
    ensures Reads(ff, m, FrameWords(ff, orig, n)[j..], m)
    decreases n - j
  {
    if j == n {
      ReadsNothing(ff, m);
    } else {
      var l := FrameWords(ff, orig, n);
      FrameValuesCount(ff, orig, j, |orig|);
      BlankLine(ff, m);
      BlankFramesRead(ff, orig, m, j + 1, n);
      ThenReadsFrom(ff, m, l, j, m, m);
    }
  }
}
