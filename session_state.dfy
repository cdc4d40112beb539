// The checkpointed state of one extraction session: its stage and what the
// completed stages have produced.

module SessionDomain {
  import opened Strings
  import opened Errors
  import Availability

  /** Six stages in order, and a failure carrying its reason. */
  datatype SessionStatus =
    | Starting
    | MetadataFetched
    | VideoDownloaded
    | FramesExtracted
    | UniqueSlidesIdentified
    | Completed
    | Failed(reason: string)

  datatype SessionState = SessionState(
    sessionId: Id,
    status: SessionStatus,
    videoMetadata: Option<Availability.VideoMetadata>,
    videoPath: Option<string>,
    framesDir: Option<string>,
    slidesDir: Option<string>,
    reportPath: Option<string>)

  /** `SessionState::new`: a session at its first stage with nothing recorded. */
  function NewSessionState(sessionId: Id): (s: SessionState)
    ensures s.sessionId == sessionId && s.status == Starting
    ensures s.videoMetadata.None? && s.videoPath.None? && s.framesDir.None?
    ensures s.slidesDir.None? && s.reportPath.None?
  {
    SessionState(sessionId, Starting, None, None, None, None, None)
  }

  /** The position of a stage in the order of the pipeline. */
  function Rank(s: SessionStatus): (k: nat)
    requires !s.Failed?
    ensures k <= 5
  {
    match s
    case Starting => 0
    case MetadataFetched => 1
    case VideoDownloaded => 2
    case FramesExtracted => 3
    case UniqueSlidesIdentified => 4
    case Completed => 5
  }

  /** The stage at a position. */
  function StageAt(k: nat): (s: SessionStatus)
    requires k <= 5
    ensures !s.Failed? && Rank(s) == k
  {
    if k == 0 then Starting
    else if k == 1 then MetadataFetched
    else if k == 2 then VideoDownloaded
    else if k == 3 then FramesExtracted
    else if k == 4 then UniqueSlidesIdentified
    else Completed
  }

  /** Positions and stages correspond one to one. */
  lemma RankStageAt(s: SessionStatus)
    requires !s.Failed?
    ensures StageAt(Rank(s)) == s
  {
  }
}
