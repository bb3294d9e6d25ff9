# BVH viewer core in Dafny

A model of the core of a small Windows BVH (Biovision Hierarchy) motion viewer.
It covers two parts:

- **The parser class `BVHParser`** (`BVHPaser.cs`). It reads a BVH file line by
  line:
  - the HIERARCHY section (ROOT, JOINT, `{`, `}`, OFFSET, CHANNELS and the
    skipped End Site block) builds a joint tree;
  - the MOTION section (frame count, frame time, one line of samples per frame)
    stores each joint's position and rotation per frame;
  - a successful load indexes the joints by name.

  It also writes a joint tree and its motion back as text.
- **The slice of the viewer form (`Form1.cs`) that uses the parser.** This
  covers:
  - loading a file;
  - mirroring the joints into the form's own node list and linking each entry
    to its parent by name;
  - the rotation a joint has at a frame;
  - the product of transforms drawBVH composes from a joint up to the root;
  - playback: advancing the frame, play/pause, and the track bar.

Modules, one per concern:

| module | file | what it holds |
|---|---|---|
| `Options` | options.dfy | `Option` |
| `Text` | text.dfy | String.Split(' '), Trim, the words of a line, int.Parse/int.ToString, C#'s int and its `++`, the float format parameter |
| `Skeleton` | skeleton.dfy | Vec3, Channel, the joint `Node`, the joint list as an arena, and its tree facts (children, pre-order, subtree ends) |
| `LoadSpec` | load_spec.dfy | the state of a parser, and Load / ParseHierarchy / ParseMotion as functions on it |
| `LoadFacts` | load_facts.dfy | the tree invariant `Built` that every load step keeps |
| `LoadProps` | load_props.dfy | properties of the load: blank lines, section words, End Site, CHANNELS, samples, IsEnable, the name index |
| `SaveSpec`, `SaveWords` | save_spec.dfy, save_words.dfy | what Save writes, and how that text splits back into words |
| `Reload`, `ReloadTree`, `ReloadMotion`, `RoundTrip` | reload*.dfy, roundtrip.dfy | reading saved text back, ending in `SaveThenLoad` |
| `Parser` | parser.dfy | the class `BVHParser`: its fields, and its methods with loops, each proved against the functions above |
| `ViewerForm` | viewer.dfy | the class `BVHViewer` (Form1) and the forward-kinematics specification |

Modelling choices:

- **Arena for the joint tree.** Every joint the parser creates (ROOT and JOINT)
  is appended to `_nodeOrder` exactly once, and nothing else is. So a joint is
  represented by its index in that list:
  - `Parent` is an optional index;
  - `Nodes` (the children) is a sequence of indices;
  - the name dictionary maps names to indices.

  `Node` is a value. Its in-place updates are updates of the parser's
  `nodeOrder` field.
- **Exceptions.** An exception the source would throw is the outcome `Threw`;
  `return false` is `Failed`. The model keeps the parser's state as it is at
  the throw.
- **Numbers.** `float.Parse`/`float.ToString` depend on the culture, so they are
  a parameter `FloatFormat`. `int.Parse`, `int.ToString` and the 32-bit
  wrap-around of `motionNum++` and `_frame++` are modelled exactly. Offsets,
  samples and the frame time are exact reals, and setBVH's `* SCALE` is exact
  multiplication by 1/10 (`ViewerForm.Scaled`).
- **Matrices** are symbolic lists of factors (`Rotate(axis, degrees)`,
  `Translate(offset)`), multiplied left to right.

## Model

| member | source | states |
|---|---|---|
| Parser.BVHParser.constructor | BVHPaser.cs:188-194 | a new parser is in UNKNOWN mode, with no joints, an empty dictionary, and not enabled |
| Parser.BVHParser.GetNode | BVHPaser.cs:167-173 | a joint found for a name is a joint of that name (the invariant every load keeps); nothing is found only for a name the dictionary does not hold |
| Parser.BVHParser.GetNodeList | BVHPaser.cs:179-182 | the joint list, which after any sequence of loads is a linked tree in pre-order |
| Parser.BVHParser.Load | BVHPaser.cs:201-217 | the state after Load is the reset state run over the file's lines, and the tree invariant holds again |
| Parser.BVHParser.LoadStream | BVHPaser.cs:220-294 | the line loop, proved against `Run` on the lines' words: stops at the first failing line, otherwise indexes the names |
| Parser.BVHParser.Pass | BVHPaser.cs:241-283 | one pass of the line loop equals one `Step` of the specification: the lines it consumes (four for End Site) and the state it leaves |
| Parser.BVHParser.HierarchyPass | BVHPaser.cs:256-271 | a HIERARCHY-mode line equals one `Step`: End Site consumes itself and up to three more lines (fewer at the end of the file), a lone End throws on the missing second word, and any other line stops the loop exactly when ParseHierarchy does not return true, with its status |
| Parser.BVHParser.MotionPass | BVHPaser.cs:274-280 | a MOTION-mode line equals one `Step`: the line goes to ParseMotion, consumes one line, and stops the loop exactly when ParseMotion does not return true, with its status |
| Parser.BVHParser.BuildIndex | BVHPaser.cs:286-293 | the dictionary after the foreach of Dictionary.Add, which throws on the first repeated name; IsEnable only when all were added |
| Parser.SplitLine | BVHPaser.cs:224-239 | a line's words are the non-empty trimmed pieces of its split at spaces (`Tokenize`) |
| Parser.TrimAll | BVHPaser.cs:227-228 | every piece of the array is trimmed in place, in order |
| Parser.CollectWords | BVHPaser.cs:231-239 | the trimmed pieces that are not empty, in order |
| Parser.BVHParser.ParseHierarchy | BVHPaser.cs:300-374 | one HIERARCHY line by its first word: ROOT, `{`, `}`, OFFSET, CHANNELS, JOINT; the errors as `Failed`/`Threw` |
| Parser.BVHParser.ParseChannels | BVHPaser.cs:338-356 | CHANNELS appends the named channels to the target one by one; an unknown name stops with `Failed` after the earlier ones were added |
| Parser.BVHParser.ParseMotion | BVHPaser.cs:381-443 | header lines until both the frame count and the frame time are read, sample lines after |
| Parser.BVHParser.ParseHeader | BVHPaser.cs:383-406 | the four header forms `Frames:`, `Frames :`, `Frame Time:` and `Frame Time :` |
| Parser.BVHParser.ReadFrameNum | BVHPaser.cs:386-395 | FrameNum from int.Parse of the word after the keyword; a missing or malformed word throws |
| Parser.BVHParser.ReadFrameSpan | BVHPaser.cs:397-405 | FrameSpan from float.Parse of the word after the keyword |
| Parser.BVHParser.ParseSample | BVHPaser.cs:408-441 | each joint reads its channels' values from the line in joint order and stores them at the current frame. A malformed or missing value throws, and the joints before it keep what they stored. The frame counter advances only if every value parsed |
| Parser.ReadJoint | BVHPaser.cs:414-437 | one joint's channel values, read from position `at`; on success the cursor moves by the channel count |
| Parser.BVHParser.Save | BVHPaser.cs:450-461 | the lines Save writes are `SaveLines`: the hierarchy, then the motion. Without a root it stops with a null dereference, after the line "HIERARCHY" |
| Parser.BVHParser.WriteHierarchy | BVHPaser.cs:469-494 | "HIERARCHY", then the root's block; an End Site with the root's own offset when it has no children |
| Parser.BVHParser.WriteJoint | BVHPaser.cs:500-530 | a joint's block at its depth of tabs, its children recursively, an End Site with a zero offset for a leaf |
| Parser.BVHParser.WriteChildren | BVHPaser.cs:520-525 | the children's blocks in child order |
| Parser.MakeTab | BVHPaser.cs:503-504 | the indentation is `layer` tab characters |
| Parser.GetStringChannel | BVHPaser.cs:565-582 | "CHANNELS", the count, then each channel's name followed by a space |
| Parser.BVHParser.WriteMotion | BVHPaser.cs:589-623 | "MOTION", the frame count, the frame time, one line per frame, then an empty line |
| Parser.BVHParser.WriteFrame | BVHPaser.cs:600-618 | a frame's line is every joint's channel values, in joint order, each followed by a space |
| Parser.ChannelWord | BVHPaser.cs:571-579 | the word the switch writes for a channel is the channel's enum name (the one the CHANNELS case reads back), then a space |
| Parser.WriteNode | BVHPaser.cs:602-616 | one joint's part of a frame line: its channel values in channel order, each followed by a space, appended to the line so far |
| Parser.ValueText | BVHPaser.cs:604-614 | the text for one channel is the matching component of the frame's position or rotation, formatted |
| Text.SplitJoin | BVHPaser.cs:224 | String.Split(' ') loses nothing: joining the pieces with spaces gives the line back |
| Text.TokenizeJoined | BVHPaser.cs:224-239 | indented words joined by single spaces split back into exactly those words |
| Text.TrimIndented | BVHPaser.cs:228 | Trim removes the indentation in front of a word and nothing else |
| Text.ParseFormatInt | BVHPaser.cs:386-395 | int.Parse reads back what int.ToString wrote, for every int |
| Text.Inc32 | BVHPaser.cs:439 | `motionNum++` on a C# int is the Int32 congruent to the old value plus one modulo 2^32 (two's-complement wrap-around, unchecked) |
| Text.Inc32Unique | BVHPaser.cs:439 | that congruence fixes the result: the old value plus one when it fits, the smallest int after the largest |
| Text.CleanAppend | BVHPaser.cs:231-239 | the empty-piece filter distributes over concatenation |
| Skeleton.Node.SetMotionPos | BVHPaser.cs:75-78 | this frame's position is the new one, every other frame's is unchanged, and the key set gains the frame |
| Skeleton.Node.SetMotionPosElement | BVHPaser.cs:80-90 | one component of this frame's position changes (starting from zero for a new frame), and nothing else |
| Skeleton.Node.SetMotionRot | BVHPaser.cs:94-97 | as SetMotionPos, for the rotation |
| Skeleton.Node.SetMotionRotElement | BVHPaser.cs:99-109 | as SetMotionPosElement, for the rotation |
| Skeleton.NewNodeReadsZero | BVHPaser.cs:112-128 | a new joint reads the zero vector at every frame |
| Skeleton.ChannelNames | BVHPaser.cs:344-351 | the channel-name comparison chain recognises exactly the six names Enum.ToString gives |
| Skeleton.ChildrenOfSpec | BVHPaser.cs:358-370 | a joint's child list holds exactly the joints naming it as parent, in increasing order |
| Skeleton.SubtreeSpan | BVHPaser.cs:300-374 | in declaration order a subtree is exactly the joints from its root to its end |
| Skeleton.ChildrenChain | BVHPaser.cs:358-370 | the first child directly follows its parent, each next child starts where the previous child's subtree ends, and the last ends with the parent's |
| LoadSpec.AddNamesOk | BVHPaser.cs:286-290 | adding the names succeeds exactly when they are pairwise different and new to the dictionary |
| LoadSpec.AddNamesIndex | BVHPaser.cs:286-290 | after a successful add, every joint's name maps to its own index |
| LoadSpec.AddNamesKeys | BVHPaser.cs:286-290 | after a successful add, the dictionary's keys are the old keys plus the joints' names |
| LoadSpec.AddNamesNamed | BVHPaser.cs:286-290 | every name Add puts in the dictionary, up to a repeated name, leads to the joint of that name |
| LoadFacts.LoadKeepsBuilt | BVHPaser.cs:201-294 | after any load: links agree, pre-order, the target on the right-most branch, the root parentless, and names are single words |
| LoadFacts.StepKeepsBuilt | BVHPaser.cs:241-283 | each line keeps that tree invariant |
| LoadFacts.ParseHierarchyKeepsBuilt | BVHPaser.cs:300-374 | each HIERARCHY line keeps it |
| LoadFacts.ParseMotionKeepsBuilt | BVHPaser.cs:381-443 | each MOTION line keeps it |
| LoadProps.BlankLineSkipped | BVHPaser.cs:241 | a line of white space changes nothing |
| LoadProps.UnknownLinesIgnored | BVHPaser.cs:282 | before the first section word, lines without a section word are ignored |
| LoadProps.ModeLine | BVHPaser.cs:243-252 | HIERARCHY and MOTION only switch the mode, in any mode |
| LoadProps.EndSiteSkips | BVHPaser.cs:258-264 | End Site skips itself and the next three lines; at the end of the file it ends the load |
| LoadProps.ChannelsLine | BVHPaser.cs:338-356 | a CHANNELS line adds exactly the named channels, or fails with Failed if one is unknown |
| LoadProps.ReadSampleOk | BVHPaser.cs:414-437 | a joint's values read exactly when each of its channel's words parses |
| LoadProps.FillFromOk | BVHPaser.cs:410-440 | a sample line is accepted exactly when all the channel words of all joints parse |
| LoadProps.FillFromExtra | BVHPaser.cs:410-440 | words beyond the channel count are ignored |
| LoadProps.HeaderLine | BVHPaser.cs:383-406 | a header line changes neither the joints nor the counter; an unknown word is skipped |
| LoadProps.SampleLine | BVHPaser.cs:408-441 | a sample line succeeds exactly when all values parse, and then advances the counter |
| LoadProps.LoadEnable | BVHPaser.cs:292 | IsEnable is set by a load that finishes, and is left unchanged by one that fails |
| LoadProps.LoadDoneIndex | BVHPaser.cs:286-293 | after a successful load the names are distinct and GetNode finds each joint by its name |
| LoadProps.LoadIndexed | BVHPaser.cs:201-294 | after any load, finished, failed or thrown, every name in the dictionary leads to a joint of that name |
| LoadProps.RunIndexed | BVHPaser.cs:222-290 | the line loop from an empty dictionary, however it ends, leaves only names that lead to their joints |
| LoadProps.StepKeepsEnable | BVHPaser.cs:241-283 | no line sets IsEnable or touches the dictionary, and a line that stops the loop never reports success |
| SaveSpec.MotionShape | BVHPaser.cs:589-623 | the motion text has four lines plus one per frame: MOTION, the two header lines, the frames, an empty line |
| SaveSpec.MotionFrameAt | BVHPaser.cs:604-618 | line 3 + f of the motion text is frame f's samples |
| SaveSpec.ChannelLineWords | BVHPaser.cs:565-582 | the CHANNELS line splits back into CHANNELS, the count and the names |
| SaveSpec.OffsetLineWords | BVHPaser.cs:547-558 | the OFFSET line splits back into OFFSET and three numbers |
| SaveSpec.NamesReadBack | BVHPaser.cs:565-582 | every channel name written is read back as the same channel |
| SaveSpec.FrameLineWords | BVHPaser.cs:600-618 | a frame's line splits back into its values |
| SaveWords.JointSaid | BVHPaser.cs:500-530 | a joint's written block splits back into the words of the block |
| SaveWords.RootSaid | BVHPaser.cs:469-494 | the root's written block splits back into the words of the block |
| SaveWords.MotionSaid | BVHPaser.cs:589-622 | the written motion splits back into its words |
| RoundTrip.SaveThenLoad | BVHPaser.cs:450-461 | loading what Save wrote succeeds and recovers the tree (same parents, children, names, offsets, channels), the frame count and time, every joint's samples for the frames written, and the name index. This assumes a single root in pre-order, names that are words, and numbers written exactly |
| ViewerForm.GetRotMatrixFromBVHNode | Form1.cs:177-203 | the factors, last channel first: each rotation channel rotates about its axis by that component of the frame's euler angles, and position channels add nothing |
| ViewerForm.RotFactorsRotate | Form1.cs:186-201 | one rotation per rotation channel, each by its axis's angle |
| ViewerForm.RotFactorsAppend | Form1.cs:186-201 | the channels after a split come first in the product |
| ViewerForm.ZXYOrder | Form1.cs:186-201 | for channels Z, X, Y the product is Ry·Rx·Rz |
| ViewerForm.BVHViewer.constructor | Form1.cs:51-56 | no parser, an empty list, frame 0, paused |
| ViewerForm.BVHViewer.LoadBVH | Form1.cs:324-343 | BVH mode, paused, a fresh parser loaded with the lines; a load that throws leaves the frame as it was (nothing catches the exception, so setBVH and `_frame = 0` are skipped), any other load sets frame 0; the list is empty unless the load succeeds, and then mirrors the joints |
| ViewerForm.BVHViewer.AfterLoad | Form1.cs:333-338 | after the load: nothing if it threw (the frame stays); otherwise setBVH and frame 0, the list staying empty unless the load succeeded, and then mirroring the joints |
| ViewerForm.BVHViewer.SetBVH | Form1.cs:62-92 | nothing without an enabled parser; otherwise one entry per joint (name, parent's name, scaled offset) appended, then every entry linked |
| ViewerForm.BVHViewer.LinkParents | Form1.cs:79-90 | every entry's parent becomes the first entry whose name is its parentName |
| ViewerForm.BVHViewer.FindNamed | Form1.cs:81-88 | the inner loop finds the first entry with the name |
| ViewerForm.FirstNamedSpec | Form1.cs:81-88 | the index found holds the name and no entry before it does; none found means no entry holds it |
| ViewerForm.MirrorParents | Form1.cs:62-92 | for a loaded tree, the linked list has the joints' names, their scaled offsets and their own parents, and each parent comes before its child |
| ViewerForm.LoadedMirror | Form1.cs:324-343 | after a successful load, the list setBVH builds mirrors the parser's joints, and GetNode finds each entry's joint |
| ViewerForm.BVHViewer.GlobalFactors | Form1.cs:104-124 | the walk from a joint to the root multiplies, per entry, its rotation at the frame then its translation, ending at the parentless entry; an entry with no joint of its name is a null reference (none) |
| ViewerForm.AncestorsWalk | Form1.cs:110-124 | the walk visits the joint, then each parent in turn, and ends at an entry without a parent |
| ViewerForm.GlobalAlongAncestors | Form1.cs:110-124 | the product is the factors of the entries along that walk |
| ViewerForm.MirroredGlobal | Form1.cs:104-124 | on a mirrored list the product is the forward kinematics of the parser's own tree |
| ViewerForm.BVHViewer.Update | Form1.cs:209-238 | the frame after one update: while a BVH plays it advances and wraps to 0 at FrameNum; OBJ mode resets it |
| ViewerForm.NextFrameCycles | Form1.cs:216-222 | from a frame in range, playing moves to the next frame modulo FrameNum |
| ViewerForm.PlayFrom0 | Form1.cs:216-222 | after k updates from frame 0 the frame is k modulo FrameNum |
| ViewerForm.BVHViewer.PlayPause | Form1.cs:362 | the play button toggles playing and changes nothing else |
| ViewerForm.BVHViewer.TrackBarScroll | Form1.cs:365-369 | the track bar pauses and sets the frame to its value |

## Left out

- **Viewer.cs and Form1.Designer.cs.** The OpenGL drawing, the camera, OBJ
  loading (loadOBJ, drawOBJ) and the timing loop (start) are not modelled.
  Neither are the labels, the `_fps` display or the track bar's Maximum.
- **drawBVH.** From drawBVH only the matrix product is modelled. Not modelled:
  Vector3.Transform of the origin into `globalPos`, and the axis drawing.
- **File I/O.** The file is its lines: Load takes `seq<string>`, and Save
  returns the lines it writes. The shift_jis decoding, the StreamReader,
  Save's StreamWriter and file path (including the early return on a null
  path), and MessageBox are not modelled.
- **Float arithmetic.** Offsets and samples are exact reals, not 32-bit
  floats. The one product the model computes, setBVH's
  `offset * SCALE` (Form1.cs:74, with `SCALE = 0.1f` at Form1.cs:37), is exact
  multiplication by 1/10, so `Mirrors` and `MirrorParents` promise
  `localPos == Scaled(offset)` exactly where the source rounds to the nearest
  float. deg2rad and the Matrix4 arithmetic are kept symbolic: a rotation
  carries its angle in degrees, and a matrix is the list of its factors.
  float.Parse and float.ToString are the parameter `FloatFormat`.
- **Node references.** Every joint is its index in `nodeOrder` (an arena). The
  model cannot express two lists sharing one Node object, but in the source
  only `_nodeOrder` and the tree refer to joints.
- **Exception kinds.** The kind of an exception is not kept: NullReference,
  IndexOutOfRange, Format, Overflow and ArgumentException are all `Threw`.
- Parser.BVHParser.ParseHierarchy: on ROOT without a name, the source has
  already replaced `_root` (only `_root`) with a new node when
  `_root.Name = words[1]` throws (BVHPaser.cs:307-309); `_target` is not yet
  set and the node is not added to `_nodeOrder`. A joint is its index in
  `nodeOrder`, so the model cannot point `root` at a node outside the list: it
  throws and leaves `root` unchanged.
- Parser.BVHParser.ParseSample: the guard `words[wordIndex] == ""` at
  BVHPaser.cs:421 cannot be true, because a word is never empty
  (`Text.TokensNonEmpty`). So the branch is not written out.
- ViewerForm.BVHViewer.GlobalFactors: requires that every entry's parent comes
  earlier in the list. For a list with a cycle of parent names the source
  loops forever. `MirrorParents` proves the requirement for every list built
  from a successful load.
- ViewerForm.BVHViewer.SetBVH: for a list that was not empty beforehand (the
  source never calls setBVH twice without clearing), the contract states the
  new list, but not that it mirrors the joints.
- RoundTrip.SaveThenLoad: holds for parsers in the state `Saveable`
  (roundtrip.dfy), not for every state. Its conditions are:
  - 0, every offset component, every sample the channels carry, and the frame
    time are each written as one word that parses back to the same value
    (`ShowsExactly`); the .NET formatting rules that make this true are not
    modelled;
  - joint 0 is the only root: it has no parent, and every other joint has
    one. With two ROOT blocks, Save writes only the last root's tree
    (`WriteHierarchy(wr, _root)`, BVHPaser.cs:455), while WriteMotion writes
    the samples of every joint in `_nodeOrder` (BVHPaser.cs:603). The file
    then does not read back;
  - the joints form a linked tree in pre-order with children after parents
    (`Tree`), as every load leaves them (`LoadFacts.LoadKeepsBuilt`);
  - the names are single words and pairwise different, as a finished load
    leaves them (`LoadProps.LoadDoneIndex`), and no joint has more than
    Int32Max channels.

Read in file order, the channels `Zrotation Xrotation Yrotation` suggest the
product Rz·Rx·Ry. GetRotMatrixFromBVHNode multiplies from the last channel to
the first, which gives Ry·Rx·Rz (`ZXYOrder`). The model follows the code.
