// Anchor-based grouping of consecutive near-duplicate frames into slides,
// choice of a representative frame per slide, and slide numbering/naming.

module Dedup {
  import opened Errors
  import opened Strings
  import HashComparer

  /** Per-frame input of the deduplication command. */
  datatype FrameDedupMetadata = FrameDedupMetadata(
    frameId: Id, frameNumber: nat, timestamp: real, hash: string, framePath: string)

  datatype SelectionStrategy = First | Middle | Last

  datatype IdentifyUniqueSlidesCommand = IdentifyUniqueSlidesCommand(
    videoId: Id,
    framesDir: string,
    slidesDir: string,
    similarityThreshold: real,
    selectionStrategy: SelectionStrategy,
    frames: seq<FrameDedupMetadata>)

  /** The command's defaults: threshold 0.95, middle frame. */
  function DefaultCommand(videoId: Id): (c: IdentifyUniqueSlidesCommand)
    ensures c.similarityThreshold == 0.95 && c.selectionStrategy == Middle
    ensures c.framesDir == "" && c.slidesDir == "" && c.frames == []
  {
    IdentifyUniqueSlidesCommand(videoId, "", "", 0.95, Middle, [])
  }

  datatype SlidePreserved = SlidePreserved(
    videoId: Id, frameId: Id, slideIndex: nat, slidePath: string)

  datatype UniqueSlidesIdentified = UniqueSlidesIdentified(
    videoId: Id, slideCount: nat, slidesDir: string)

  type Group = seq<FrameDedupMetadata>

  predicate AllNonEmpty(gs: seq<Group>)
  {
    forall k :: 0 <= k < |gs| ==> gs[k] != []
  }

  /** One step of the forward pass: the last group is the open one; the new
      frame joins it when it is similar enough to the open group's first frame. */
  function Step(gs: seq<Group>, f: FrameDedupMetadata, t: real): (r: seq<Group>)
    requires AllNonEmpty(gs)
    ensures AllNonEmpty(r) && r != []
  {
    if gs == [] then [[f]]
    else
      var open := gs[|gs| - 1];
      if HashComparer.Similarity(open[0].hash, f.hash) >= t then gs[..|gs| - 1] + [open + [f]]
      else gs + [[f]]
  }

  /** The groups of the forward pass over `frames`. */
  function Grouping(frames: seq<FrameDedupMetadata>, t: real): (r: seq<Group>)
    ensures AllNonEmpty(r)
    ensures r == [] <==> frames == []
  {
    if frames == [] then []
    else Step(Grouping(frames[..|frames| - 1], t), frames[|frames| - 1], t)
  }

  function Flatten(gs: seq<Group>): seq<FrameDedupMetadata>
  {
    if gs == [] then [] else Flatten(gs[..|gs| - 1]) + gs[|gs| - 1]
  }

  /** The representative frame of a group. */
  function Representative(g: Group, s: SelectionStrategy): (f: FrameDedupMetadata)
    requires g != []
    ensures f in g
    ensures s == First ==> f == g[0]
    ensures s == Middle ==> f == g[|g| / 2]
    ensures s == Last ==> f == g[|g| - 1]
  {
    match s
    case First => g[0]
    case Middle => g[|g| / 2]
    case Last => g[|g| - 1]
  }

  /** `format!("{}/slide_{:04}.jpg", dir, i)`. */
  function SlidePath(dir: string, i: nat): (p: string)
    ensures StartsWith(p, dir + "/slide_") && EndsWith(p, ".jpg")
  {
    var p := dir + "/slide_" + PadNat(i, 4) + ".jpg";
    assert p[..|dir| + 7] == dir + "/slide_";
    p
  }

  /** The event of the slide at 0-based position i. */
  function SlideEvent(cmd: IdentifyUniqueSlidesCommand, gs: seq<Group>, i: nat): SlidePreserved
    requires i < |gs| && gs[i] != []
  {
    SlidePreserved(cmd.videoId, Representative(gs[i], cmd.selectionStrategy).frameId, i + 1,
                   SlidePath(cmd.slidesDir, i + 1))
  }

  /** The grouping loop of `handle_identify_unique_slides`. */
  method GroupFrames(frames: seq<FrameDedupMetadata>, t: real) returns (groups: seq<Group>)
    requires frames != []
    ensures groups == Grouping(frames, t)
  {
    groups := [];
    var current: Group := [];
    var i := 0;
    while i < |frames|
      invariant 0 <= i <= |frames|
      invariant i == 0 ==> groups == [] && current == []
      invariant i > 0 ==> current != [] && AllNonEmpty(groups) &&
                          groups + [current] == Grouping(frames[..i], t)
    {
      var frame := frames[i];
      GroupingPrefix(frames, i, t);
      if current == [] {
        current := [frame];
      } else {
        StepOpen(groups, current, frame, t);
        var similarity := HashComparer.CalculateSimilarity(current[0].hash, frame.hash);
        if similarity >= t {
          current := current + [frame];
        } else {
          groups := groups + [current];
          current := [frame];
        }
      }
      i := i + 1;
    }
    assert frames[..|frames|] == frames;
    groups := groups + [current];
  }

  /** Grouping one more frame is one more step. */
  lemma GroupingPrefix(frames: seq<FrameDedupMetadata>, i: nat, t: real)
    requires i < |frames|
    ensures Grouping(frames[..i + 1], t) == Step(Grouping(frames[..i], t), frames[i], t)
  {
    assert frames[..i + 1][..i] == frames[..i];
  }

  /** A step against an open group either extends it or opens a new one. */
  lemma StepOpen(groups: seq<Group>, current: Group, f: FrameDedupMetadata, t: real)
    requires AllNonEmpty(groups) && current != []
    ensures AllNonEmpty(groups + [current])
    ensures Step(groups + [current], f, t) ==
      if HashComparer.Similarity(current[0].hash, f.hash) >= t then groups + [current + [f]]
      else groups + [current] + [[f]]
  {
    var gs := groups + [current];
    assert gs[..|gs| - 1] == groups && gs[|gs| - 1] == current;
  }

  /** The event loop of `handle_identify_unique_slides`. */
  method SlideEvents(cmd: IdentifyUniqueSlidesCommand, groups: seq<Group>) returns (events: seq<SlidePreserved>)
    requires AllNonEmpty(groups)
    ensures |events| == |groups|
    ensures forall i :: 0 <= i < |groups| ==> events[i] == SlideEvent(cmd, groups, i)
  {
    events := [];
    var index := 0;
    while index < |groups|
      invariant 0 <= index <= |groups|
      invariant |events| == index
      invariant forall j :: 0 <= j < index ==> events[j] == SlideEvent(cmd, groups, j)
    {
      var representative := Representative(groups[index], cmd.selectionStrategy);
      var event := SlidePreserved(cmd.videoId, representative.frameId, index + 1,
                                  SlidePath(cmd.slidesDir, index + 1));
      ghost var before := events;
      events := events + [event];
      forall j | 0 <= j < index + 1
        ensures events[j] == SlideEvent(cmd, groups, j)
      {
        if j < index {
          assert events[j] == before[j];
        } else {
          assert events[j] == event;
        }
      }
      index := index + 1;
    }
  }

  /** The events of every group of the command's frames, in order. */
  function SlidesFound(cmd: IdentifyUniqueSlidesCommand): seq<SlidePreserved>
  {
    var gs := Grouping(cmd.frames, cmd.similarityThreshold);
    seq(|gs|, i requires 0 <= i < |gs| => SlideEvent(cmd, gs, i))
  }

  /** `handle_identify_unique_slides`. */
  method IdentifyUniqueSlides(cmd: IdentifyUniqueSlidesCommand)
    returns (r: Result<(UniqueSlidesIdentified, seq<SlidePreserved>)>)
    ensures r == (if cmd.frames == [] then Err(NoUniqueSlidesFound)
                  else Ok((UniqueSlidesIdentified(cmd.videoId, |SlidesFound(cmd)|, cmd.slidesDir), SlidesFound(cmd))))
    ensures r.Err? <==> cmd.frames == []
    ensures r.Err? ==> r.error == NoUniqueSlidesFound
    ensures r.Ok? ==>
      var gs := Grouping(cmd.frames, cmd.similarityThreshold);
      var (summary, events) := r.value;
      |events| == |gs| &&
      (forall i :: 0 <= i < |gs| ==> events[i] == SlideEvent(cmd, gs, i)) &&
      summary == UniqueSlidesIdentified(cmd.videoId, |events|, cmd.slidesDir)
  {
    if cmd.frames == [] {
      return Err(NoUniqueSlidesFound);
    }
    var groups := GroupFrames(cmd.frames, cmd.similarityThreshold);
    var events := SlideEvents(cmd, groups);
    assert events == SlidesFound(cmd);
    var summary := UniqueSlidesIdentified(cmd.videoId, |events|, cmd.slidesDir);
    r := Ok((summary, events));
  }

  // ---------------------------------------------------------------------
  // Properties of the grouping

  lemma FlattenAppend(gs: seq<Group>, g: Group)
    ensures Flatten(gs + [g]) == Flatten(gs) + g
  {
    assert (gs + [g])[..|gs|] == gs;
  }

  /** The groups concatenate back to the input, in order. */
  lemma {:induction false} GroupingFlattens(frames: seq<FrameDedupMetadata>, t: real)
    ensures Flatten(Grouping(frames, t)) == frames
  {
    if frames != [] {
      var init := frames[..|frames| - 1];
      var f := frames[|frames| - 1];
      var gs := Grouping(init, t);
      GroupingFlattens(init, t);
      if gs != [] {
        var open := gs[|gs| - 1];
        var front := gs[..|gs| - 1];
        assert gs == front + [open];
        FlattenAppend(front, open);
        if HashComparer.Similarity(open[0].hash, f.hash) >= t {
          FlattenAppend(front, open + [f]);
        } else {
          FlattenAppend(gs, [f]);
        }
      }
      assert init + [f] == frames;
    }
  }

  /** Every member of a group is similar enough to the group's first frame. */
  lemma {:induction false} GroupingAnchored(frames: seq<FrameDedupMetadata>, t: real)
    ensures forall k, j :: 0 <= k < |Grouping(frames, t)| && 0 < j < |Grouping(frames, t)[k]| ==>
      HashComparer.Similarity(Grouping(frames, t)[k][0].hash, Grouping(frames, t)[k][j].hash) >= t
  {
    if frames != [] {
      GroupingAnchored(frames[..|frames| - 1], t);
    }
  }

  /** A new group starts exactly where a frame is not similar enough to the
      open group's first frame: consecutive anchors are dissimilar. */
  lemma {:induction false} GroupingBreaks(frames: seq<FrameDedupMetadata>, t: real)
    ensures forall k :: 0 <= k < |Grouping(frames, t)| - 1 ==>
      HashComparer.Similarity(Grouping(frames, t)[k][0].hash, Grouping(frames, t)[k + 1][0].hash) < t
  {
    if frames != [] {
      GroupingBreaks(frames[..|frames| - 1], t);
    }
  }

  lemma {:induction false} FlattenLength(gs: seq<Group>)
    requires AllNonEmpty(gs)
    ensures |Flatten(gs)| >= |gs|
  {
    if gs != [] { FlattenLength(gs[..|gs| - 1]); }
  }

  /** There is at least one slide and never more slides than frames. */
  lemma SlideCountBounds(frames: seq<FrameDedupMetadata>, t: real)
    requires frames != []
    ensures 1 <= |Grouping(frames, t)| <= |frames|
  {
    GroupingFlattens(frames, t);
    FlattenLength(Grouping(frames, t));
  }

  /** With a threshold of 0 or below every frame joins the first group. */
  lemma {:induction false} NonPositiveThresholdOneSlide(frames: seq<FrameDedupMetadata>, t: real)
    requires frames != [] && t <= 0.0
    ensures |Grouping(frames, t)| == 1
  {
    var init := frames[..|frames| - 1];
    if init != [] {
      NonPositiveThresholdOneSlide(init, t);
      var open := Grouping(init, t)[0];
      HashComparer.SimilarityInRange(open[0].hash, frames[|frames| - 1].hash);
    }
  }

  /** With a positive threshold, a frame whose hash is empty or of another
      length than the anchor's never joins the anchor's group. */
  lemma MismatchedHashStartsSlide(frames: seq<FrameDedupMetadata>, t: real, k: nat, j: nat)
    requires t > 0.0
    requires k < |Grouping(frames, t)| && 0 < j < |Grouping(frames, t)[k]|
    ensures Grouping(frames, t)[k][j].hash != []
    ensures |Grouping(frames, t)[k][j].hash| == |Grouping(frames, t)[k][0].hash|
  {
    GroupingAnchored(frames, t);
  }

  /** Slide paths are pairwise distinct. */
  lemma SlidePathsDistinct(dir: string, i: nat, j: nat)
    requires i != j
    ensures SlidePath(dir, i) != SlidePath(dir, j)
  {
    var a, b := SlidePath(dir, i), SlidePath(dir, j);
    if a == b {
      var n := |dir| + 7;
      assert a[n..|a| - 4] == PadNat(i, 4);
      assert b[n..|b| - 4] == PadNat(j, 4);
      PadNatInjective(i, j, 4);
    }
  }

  /** The program's example: ffff, ffff, 0000 at 0.95 make two slides, the
      first holding the two identical frames. */
  lemma TwoSlidesExample(a: FrameDedupMetadata, b: FrameDedupMetadata, c: FrameDedupMetadata)
    requires a.hash == "ffff" && b.hash == "ffff" && c.hash == "0000"
    ensures Grouping([a, b, c], 0.95) == [[a, b], [c]]
  {
    HashComparer.SimilaritySelf("ffff");
    OppositeHashes();
    ThreeFrames(a, b, c, 0.95);
  }

  /** Three frames where the second matches the first and the third does not. */
  lemma ThreeFrames(a: FrameDedupMetadata, b: FrameDedupMetadata, c: FrameDedupMetadata, t: real)
    requires HashComparer.Similarity(a.hash, b.hash) >= t
    requires HashComparer.Similarity(a.hash, c.hash) < t
    ensures Grouping([a, b, c], t) == [[a, b], [c]]
  {
    SimilarPair(a, b, t);
    GroupingSnoc([a, b], c, t);
    assert [a, b] + [c] == [a, b, c];
    StepOpen([], [a, b], c, t);
  }

  /** Two frames where the second matches the first make one slide. */
  lemma SimilarPair(a: FrameDedupMetadata, b: FrameDedupMetadata, t: real)
    requires HashComparer.Similarity(a.hash, b.hash) >= t
    ensures Grouping([a, b], t) == [[a, b]]
  {
    OneFrameOneSlide(a, t);
    GroupingSnoc([a], b, t);
    assert [a] + [b] == [a, b];
    StepOpen([], [a], b, t);
  }

  /** Grouping one more frame at the end is one more step. */
  lemma GroupingSnoc(frames: seq<FrameDedupMetadata>, f: FrameDedupMetadata, t: real)
    ensures Grouping(frames + [f], t) == Step(Grouping(frames, t), f, t)
  {
    var fs := frames + [f];
    assert fs[..|fs| - 1] == frames && fs[|fs| - 1] == f;
  }

  lemma OppositeHashes()
    ensures HashComparer.Similarity("ffff", "0000") == 0.0
  {
    HashComparer.FarthestDigits();
    var f4, z4 := "ffff", "0000";
    assert forall i :: 0 <= i < 4 ==> f4[i] == 'f' && z4[i] == '0';
    HashComparer.DifferencesUniform(f4, z4, 4, 4);
  }

  /** A single frame makes a single slide. */
  lemma OneFrameOneSlide(f: FrameDedupMetadata, t: real)
    ensures Grouping([f], t) == [[f]]
  {
  }
}
