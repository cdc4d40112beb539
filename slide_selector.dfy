// Preservation of the chosen slides: for each slide event, find the frame it
// names, make sure the slide's directory exists and copy the frame's image
// to the slide path, stopping at the first failure.

module SlideSelector {
  import opened Strings
  import opened Errors
  import opened Files
  import opened Dedup

  /** `frames.iter().find(|f| f.frame_id == id)`: the first frame with that id. */
  function FindFrame(frames: seq<FrameDedupMetadata>, id: Id): (r: Option<FrameDedupMetadata>)
    ensures r.None? <==> forall k :: 0 <= k < |frames| ==> frames[k].frameId != id
    ensures r.Some? ==> exists k :: 0 <= k < |frames| && frames[k] == r.value && r.value.frameId == id &&
                                    forall j :: 0 <= j < k ==> frames[j].frameId != id
  {
    if frames == [] then None
    else if frames[0].frameId == id then Some(frames[0])
    else
      var r := FindFrame(frames[1..], id);
      assert r.Some? ==> exists k :: 0 <= k < |frames[1..]| && frames[1..][k] == r.value && r.value.frameId == id &&
                                     forall j :: 0 <= j < k ==> frames[1..][j].frameId != id;
      assert r.Some? ==> exists k :: 1 <= k < |frames| && frames[k] == r.value && r.value.frameId == id &&
                                     forall j :: 1 <= j < k ==> frames[j].frameId != id;
      r
  }

  function MissingFrameMessage(id: Id): string
  {
    "Frame ID " + id.uuid + " not found in metadata"
  }

  /** One iteration of the loop, on the file system `fs`; `io` renders an
      `io::Error` as text. */
  function PreserveOne(e: SlidePreserved, frames: seq<FrameDedupMetadata>, fs: FsState,
                       io: IoErrorKind -> string): (Result<()>, FsState)
  {
    match FindFrame(frames, e.frameId)
    case None => (Err(InternalError(MissingFrameMessage(e.frameId))), fs)
    case Some(f) =>
      var made := if Parent(e.slidePath).Some? then CreateDirAll(fs, Parent(e.slidePath).value) else (None, fs);
      if made.0.Some? then
        (Err(FileSystemError("Failed to create slides directory: " + io(made.0.value))), made.1)
      else
        var copied := Copy(made.1, f.framePath, e.slidePath);
        if copied.0.Some? then
          (Err(FileSystemError("Failed to copy frame " + f.framePath + " to slide " + e.slidePath + ": " + io(copied.0.value))), copied.1)
        else (Ok(()), copied.1)
  }

  /** The whole of `preserve_slides`: the result and the final file system. */
  function PreserveAll(events: seq<SlidePreserved>, frames: seq<FrameDedupMetadata>, fs: FsState,
                       io: IoErrorKind -> string): (Result<()>, FsState)
  {
    if events == [] then (Ok(()), fs)
    else
      var step := PreserveOne(events[0], frames, fs, io);
      if step.0.Err? then step else PreserveAll(events[1..], frames, step.1, io)
  }

  /** `SlideSelector::preserve_slides`, threading the file system through the loop. */
  method PreserveSlides(events: seq<SlidePreserved>, frames: seq<FrameDedupMetadata>, fs0: FsState,
                        io: IoErrorKind -> string)
    returns (r: Result<()>, fs: FsState)
    ensures (r, fs) == PreserveAll(events, frames, fs0, io)
  {
    fs := fs0;
    var i := 0;
    while i < |events|
      invariant 0 <= i <= |events|
      invariant PreserveAll(events, frames, fs0, io) == PreserveAll(events[i..], frames, fs, io)
    {
      assert events[i..][1..] == events[i + 1..];
      var e := events[i];
      var found := FindFrame(frames, e.frameId);
      if found.None? {
        return Err(InternalError(MissingFrameMessage(e.frameId))), fs;
      }
      var f := found.value;
      var parent := Parent(e.slidePath);
      if parent.Some? {
        var made := CreateDirAll(fs, parent.value);
        if made.0.Some? {
          return Err(FileSystemError("Failed to create slides directory: " + io(made.0.value))), made.1;
        }
        fs := made.1;
      }
      var copied := Copy(fs, f.framePath, e.slidePath);
      if copied.0.Some? {
        return Err(FileSystemError("Failed to copy frame " + f.framePath + " to slide " + e.slidePath + ": " + io(copied.0.value))), copied.1;
      }
      fs := copied.1;
      i := i + 1;
    }
    r := Ok(());
  }

  /** Running over `a + b` is running over `a` and, if that succeeded, over `b`
      from where `a` left the file system. */
  lemma {:induction false} PreserveAppend(a: seq<SlidePreserved>, b: seq<SlidePreserved>,
                                          frames: seq<FrameDedupMetadata>, fs: FsState, io: IoErrorKind -> string)
    ensures PreserveAll(a + b, frames, fs, io) ==
      (var first := PreserveAll(a, frames, fs, io);
       if first.0.Err? then first else PreserveAll(b, frames, first.1, io))
  {
    if a == [] {
      assert a + b == b;
    } else {
      assert (a + b)[0] == a[0] && (a + b)[1..] == a[1..] + b;
      var step := PreserveOne(a[0], frames, fs, io);
      if step.0.Ok? {
        PreserveAppend(a[1..], b, frames, step.1, io);
      }
    }
  }

  /** A slide whose frame id is not in the metadata stops the run with an
      internal error; the copies made for the slides before it stay. */
  lemma MissingFrameStops(events: seq<SlidePreserved>, frames: seq<FrameDedupMetadata>, fs: FsState,
                          io: IoErrorKind -> string, k: nat)
    requires k < |events|
    requires PreserveAll(events[..k], frames, fs, io).0.Ok?
    requires forall j :: 0 <= j < |frames| ==> frames[j].frameId != events[k].frameId
    ensures PreserveAll(events, frames, fs, io) ==
      (Err(InternalError("Frame ID " + events[k].frameId.uuid + " not found in metadata")),
       PreserveAll(events[..k], frames, fs, io).1)
  {
    assert events == events[..k] + events[k..];
    PreserveAppend(events[..k], events[k..], frames, fs, io);
    assert events[k..][0] == events[k];
  }

  /** Only slide paths can change: every other path keeps its presence and
      contents, and no directory disappears. */
  lemma {:induction false} PreserveFrame(events: seq<SlidePreserved>, frames: seq<FrameDedupMetadata>, fs: FsState,
                                         io: IoErrorKind -> string, p: string)
    requires forall k :: 0 <= k < |events| ==> events[k].slidePath != p
    ensures var after := PreserveAll(events, frames, fs, io).1;
      (p in after.files <==> p in fs.files) && (p in fs.files ==> after.files[p] == fs.files[p]) &&
      fs.dirs <= after.dirs
  {
    if events != [] {
      var step := PreserveOne(events[0], frames, fs, io);
      if step.0.Ok? {
        PreserveFrame(events[1..], frames, step.1, io, p);
      }
    }
  }

  /** A directory that appears is one of the directories above some slide path. */
  lemma {:induction false} NewDirsAboveSlides(events: seq<SlidePreserved>, frames: seq<FrameDedupMetadata>, fs: FsState,
                                              io: IoErrorKind -> string, d: string)
    requires d in PreserveAll(events, frames, fs, io).1.dirs && d !in fs.dirs
    ensures exists k :: 0 <= k < |events| && Parent(events[k].slidePath).Some? &&
                        d in DirChain(Parent(events[k].slidePath).value)
  {
    assert events != [];
    var step := PreserveOne(events[0], frames, fs, io);
    if d in step.1.dirs {
      StepDirs(events[0], frames, fs, io, d);
      assert Parent(events[0].slidePath).Some? && d in DirChain(Parent(events[0].slidePath).value);
    } else {
      assert step.0.Ok?;
      assert PreserveAll(events, frames, fs, io) == PreserveAll(events[1..], frames, step.1, io);
      NewDirsAboveSlides(events[1..], frames, step.1, io, d);
      var k :| 0 <= k < |events[1..]| && Parent(events[1..][k].slidePath).Some? &&
               d in DirChain(Parent(events[1..][k].slidePath).value);
      assert events[1..][k] == events[k + 1];
    }
  }

  /** A directory one iteration adds lies above that slide's path. */
  lemma StepDirs(e: SlidePreserved, frames: seq<FrameDedupMetadata>, fs: FsState,
                 io: IoErrorKind -> string, d: string)
    requires d in PreserveOne(e, frames, fs, io).1.dirs && d !in fs.dirs
    ensures Parent(e.slidePath).Some? && d in DirChain(Parent(e.slidePath).value)
  {
    var found := FindFrame(frames, e.frameId);
    assert found.Some?;
    var made := if Parent(e.slidePath).Some? then CreateDirAll(fs, Parent(e.slidePath).value) else (None, fs);
    assert d in made.1.dirs;
  }

  /** After a successful run every slide's frame exists in the metadata and
      every slide path holds the bytes its frame had at the start, provided
      the slide paths are distinct and none of them is a frame's own path. */
  lemma {:induction false} PreserveCopiesFrames(events: seq<SlidePreserved>, frames: seq<FrameDedupMetadata>,
                                                fs: FsState, io: IoErrorKind -> string, k: nat)
    requires k < |events|
    requires forall i, j :: 0 <= i < j < |events| ==> events[i].slidePath != events[j].slidePath
    requires forall i, j :: 0 <= i < |events| && 0 <= j < |frames| ==> events[i].slidePath != frames[j].framePath
    requires PreserveAll(events, frames, fs, io).0.Ok?
    ensures FindFrame(frames, events[k].frameId).Some?
    ensures var src := FindFrame(frames, events[k].frameId).value.framePath;
      src in fs.files && events[k].slidePath in PreserveAll(events, frames, fs, io).1.files &&
      PreserveAll(events, frames, fs, io).1.files[events[k].slidePath] == fs.files[src]
  {
    var step := PreserveOne(events[0], frames, fs, io);
    var f0 := FindFrame(frames, events[0].frameId).value;
    assert step.1.files == fs.files[events[0].slidePath := fs.files[f0.framePath]];
    if k == 0 {
      PreserveFrame(events[1..], frames, step.1, io, events[0].slidePath);
    } else {
      PreserveCopiesFrames(events[1..], frames, step.1, io, k - 1);
      assert events[1..][k - 1] == events[k];
      var src := FindFrame(frames, events[k].frameId).value.framePath;
      assert src != events[0].slidePath;
    }
  }
}
