// A processing session of the session module: its four-state lifecycle,
// its progress counter, its key/value metadata, and the manager that keeps
// sessions by id. Clock readings and new ids are supplied by the caller; the
// manager's lock, logging and JSON persistence are not part of this model.

module Session {
  import opened Strings
  import opened Errors
  import Config

  /** Timestamps and counters are unsigned 64-bit integers. */
  const U64Max: nat := 0xFFFF_FFFF_FFFF_FFFF
  type U64 = x: nat | x <= U64Max

  /** `saturating_add` on `u64`. */
  function SaturatingAdd(a: U64, b: U64): U64
  {
    if a + b <= U64Max then a + b else U64Max
  }

  /** `saturating_sub` on `u64`. */
  function SaturatingSub(a: U64, b: U64): U64
  {
    if a >= b then a - b else 0
  }

  // ---------------------------------------------------------------------
  // The lifecycle
  // ---------------------------------------------------------------------

  datatype SessionState = Created | Processing | Completed | Failed

  /** `Processing`, a name the error categories also use. */
  const Running := SessionState.Processing

  predicate IsTerminal(s: SessionState)
  {
    s == Completed || s == Failed
  }

  predicate CanStart(s: SessionState)
  {
    s == Created
  }

  predicate CanProcess(s: SessionState)
  {
    s == Created
  }

  predicate CanComplete(s: SessionState)
  {
    s == Running
  }

  predicate CanFail(s: SessionState)
  {
    s == Created || s == Running
  }

  /** The permissions agree with one another: a session may fail exactly
      while it is not finished, only a new session may start, only a
      running one may complete, and a finished one may do nothing. */
  lemma LifecycleTable(s: SessionState)
    ensures CanFail(s) <==> !IsTerminal(s)
    ensures CanStart(s) <==> CanProcess(s)
    ensures CanComplete(s) <==> !IsTerminal(s) && !CanStart(s)
    ensures IsTerminal(s) ==> !CanStart(s) && !CanProcess(s) && !CanComplete(s) && !CanFail(s)
  {
  }

  /** The state's `Display`. */
  function StateName(s: SessionState): string
  {
    if s == Created then "Created"
    else if s == Running then "Processing"
    else if s == Completed then "Completed"
    else "Failed"
  }

  /** Different states are displayed differently. */
  lemma StateNamesDistinct(s: SessionState, t: SessionState)
    requires StateName(s) == StateName(t)
    ensures s == t
  {
    assert |StateName(s)| == |StateName(t)|;
  }

  /** What the session's operations can be asked to do; `update_session`
      applies one of them to the stored session. */
  datatype SessionOp =
    | Start
    | Complete(now: U64)
    | Fail(reason: string, now: U64)
    | UpdateProgress(stage: string, processed: U64, total: U64, message: Option<string>)
    | SetMetadata(key: string, value: string)

  /** The result an operation returns in a given state: the three
      transitions refuse a state that does not permit them, naming it; the
      other operations cannot fail. */
  function Outcome(s: SessionState, op: SessionOp): (r: Result<()>)
    ensures r.Err? <==> (op.Start? && !CanProcess(s)) || (op.Complete? && !CanComplete(s)) || (op.Fail? && !CanFail(s))
    ensures r.Err? && op.Start? ==> r.error == InvalidConfig("Cannot start processing session in state: " + StateName(s))
    ensures r.Err? && op.Complete? ==> r.error == InvalidConfig("Cannot complete session in state: " + StateName(s))
    ensures r.Err? && op.Fail? ==> r.error == InvalidConfig("Cannot fail session in state: " + StateName(s))
  {
    match op
    case Start =>
      if CanProcess(s) then Ok(()) else Err(InvalidConfig("Cannot start processing session in state: " + StateName(s)))
    case Complete(_) =>
      if CanComplete(s) then Ok(()) else Err(InvalidConfig("Cannot complete session in state: " + StateName(s)))
    case Fail(_, _) =>
      if CanFail(s) then Ok(()) else Err(InvalidConfig("Cannot fail session in state: " + StateName(s)))
    case UpdateProgress(_, _, _, _) => Ok(())
    case SetMetadata(_, _) => Ok(())
  }

  /** The state after an operation; a refused operation leaves it as it was. */
  function Step(s: SessionState, op: SessionOp): SessionState
  {
    if Outcome(s, op).Err? then s
    else match op
      case Start => Running
      case Complete(_) => Completed
      case Fail(_, _) => Failed
      case UpdateProgress(_, _, _, _) => s
      case SetMetadata(_, _) => s
  }

  /** The state after a series of operations, each applied to the state the
      previous one left. */
  function Run(s: SessionState, ops: seq<SessionOp>): SessionState
    decreases |ops|
  {
    if ops == [] then s else Run(Step(s, ops[0]), ops[1..])
  }

  /** A finished session stays finished, and in the same state, whatever is
      asked of it. */
  lemma {:induction false} RunStaysTerminal(s: SessionState, ops: seq<SessionOp>)
    requires IsTerminal(s)
    ensures Run(s, ops) == s
  {
    if ops != [] {
      assert Step(s, ops[0]) == s;
      RunStaysTerminal(s, ops[1..]);
    }
  }

  /** The lifecycle never goes back: once started a session is never
      `Created` again. */
  lemma {:induction false} RunNeverRestarts(s: SessionState, ops: seq<SessionOp>)
    requires s != Created
    ensures Run(s, ops) != Created
    decreases |ops|
  {
    if ops != [] {
      RunNeverRestarts(Step(s, ops[0]), ops[1..]);
    }
  }

  /** A session that reaches `Completed` went through `Processing` on the
      way: some prefix of the operations leaves it there. */
  lemma {:induction false} CompletedOnlyAfterProcessing(s: SessionState, ops: seq<SessionOp>)
    requires s != Completed && Run(s, ops) == Completed
    ensures exists i :: 0 <= i < |ops| && Run(s, ops[..i]) == Running
    decreases |ops|
  {
    assert ops != [];
    var next := Step(s, ops[0]);
    if next == Completed {
      assert s == Running;
      assert Run(s, ops[..0]) == Running;
    } else {
      CompletedOnlyAfterProcessing(next, ops[1..]);
      var i :| 0 <= i < |ops[1..]| && Run(next, ops[1..][..i]) == Running;
      assert ops[..i + 1][1..] == ops[1..][..i];
      assert Run(s, ops[..i + 1]) == Running;
    }
  }

  // ---------------------------------------------------------------------
  // Progress
  // ---------------------------------------------------------------------

  /** `processed / total` capped at 1, or 0 when there is no total. */
  function Percentage(processed: U64, total: U64): (r: real)
    ensures total == 0 ==> r == 0.0
    ensures 0.0 <= r <= 1.0
    ensures r == 1.0 <==> total > 0 && processed >= total
    ensures total > 0 && processed < total ==> r * total as real == processed as real
  {
    if total > 0 then
      var q := processed as real / total as real;
      if q < 1.0 then q else 1.0
    else 0.0
  }

  /** Processing more never lowers the percentage. */
  lemma PercentageMonotone(p: U64, q: U64, total: U64)
    requires p <= q
    ensures Percentage(p, total) <= Percentage(q, total)
  {
    var a := Percentage(p, total);
    var b := Percentage(q, total);
    if total == 0 {
      assert a == 0.0 && b == 0.0;
    } else if q >= total {
      assert b == 1.0;
    } else {
      var t := total as real;
      assert a * t == p as real && b * t == q as real;
      CancelPositive(a, b, t);
    }
  }

  /** Multiplying by a positive factor keeps the order, so the order of
      the products is the order of the factors. */
  lemma CancelPositive(a: real, b: real, t: real)
    requires t > 0.0 && a * t <= b * t
    ensures a <= b
  {
    var d := b - a;
    assert b * t == a * t + d * t;
    SignOfFactor(d, t);
  }

  /** A factor whose product with a positive number is not negative is not
      negative itself. */
  lemma SignOfFactor(d: real, t: real)
    requires t > 0.0 && d * t >= 0.0
    ensures d >= 0.0
  {
  }

  datatype ProgressView = ProgressView(
    stage: string,
    percentage: real,
    processed: U64,
    total: U64,
    message: Option<string>)

  /** A session's progress: the stage it is in and how many of the stage's
      items it has processed. */
  class SessionProgress {
    var stage: string
    var percentage: real
    var processed: U64
    var total: U64
    var message: Option<string>

    ghost function View(): ProgressView
      reads this
    {
      ProgressView(stage, percentage, processed, total, message)
    }

    /** `SessionProgress::new`: nothing processed yet. */
    constructor (stage: string, total: U64)
      ensures View() == ProgressView(stage, 0.0, 0, total, None)
    {
      this.stage := stage;
      percentage := 0.0;
      processed := 0;
      this.total := total;
      message := None;
    }

    /** `Default`: the `Initializing` stage with no total. */
    constructor Default()
      ensures View() == ProgressView("Initializing", 0.0, 0, 0, None)
    {
      stage := "Initializing";
      percentage := 0.0;
      processed := 0;
      total := 0;
      message := None;
    }

    /** `update`: the count, the percentage it makes of the total, and the
        message; the stage and the total are kept. */
    method Update(processed: U64, message: Option<string>)
      modifies this
      ensures View() == ProgressView(old(stage), Percentage(processed, old(total)), processed, old(total), message)
    {
      this.processed := processed;
      percentage := Percentage(processed, total);
      this.message := message;
    }

    /** `increment`: one more item, saturating at the largest count, with
        the message cleared. */
    method Increment()
      modifies this
      ensures processed == SaturatingAdd(old(processed), 1)
      ensures processed == old(processed) + 1 || processed == old(processed) == U64Max
      ensures View() == ProgressView(old(stage), Percentage(processed, old(total)), processed, old(total), None)
    {
      Update(SaturatingAdd(processed, 1), None);
    }
  }

  // ---------------------------------------------------------------------
  // The session
  // ---------------------------------------------------------------------

  datatype SessionView = SessionView(
    id: Id,
    youtubeUrl: string,
    config: Config.ExtractionConfig,
    state: SessionState,
    createdAt: U64,
    completedAt: Option<U64>,
    progress: ProgressView,
    errorMessage: Option<string>,
    uniqueSlides: U64,
    framesProcessed: U64,
    metadata: map<string, string>)

  /** A new session: `Created` at `now`, nothing processed, no metadata. */
  function NewView(id: Id, youtubeUrl: string, config: Config.ExtractionConfig, now: U64): SessionView
  {
    SessionView(id, youtubeUrl, config, Created, now, None, ProgressView("Initializing", 0.0, 0, 0, None),
                None, 0, 0, map[])
  }

  /** What an operation does to a session. A refused transition changes
      nothing; `Start` renames the stage; `Complete` stamps the end, names
      the stage and fills the percentage; `Fail` records the reason and the
      end; `UpdateProgress` replaces the stage, the total, the count and the
      message; `SetMetadata` inserts or replaces one key. */
  function ApplyOp(v: SessionView, op: SessionOp): (r: SessionView)
    ensures r.state == Step(v.state, op)
    ensures r.id == v.id && r.youtubeUrl == v.youtubeUrl && r.config == v.config && r.createdAt == v.createdAt
    ensures Outcome(v.state, op).Err? ==> r == v
  {
    if Outcome(v.state, op).Err? then v
    else match op
      case Start => v.(state := Running, progress := v.progress.(stage := "Processing"))
      case Complete(now) =>
        v.(state := Completed, completedAt := Some(now), progress := v.progress.(stage := "Completed", percentage := 1.0))
      case Fail(message, now) => v.(state := Failed, errorMessage := Some(message), completedAt := Some(now))
      case UpdateProgress(stage, processed, total, message) =>
        v.(progress := ProgressView(stage, Percentage(processed, total), processed, total, message))
      case SetMetadata(key, value) => v.(metadata := v.metadata[key := value])
  }

  /** A session's end is stamped exactly when it finishes: a transition
      into `Completed` or `Failed` records the time it was given, and no
      other operation touches the stamp. */
  lemma CompletionStamped(v: SessionView, op: SessionOp)
    ensures !IsTerminal(v.state) && IsTerminal(ApplyOp(v, op).state) ==>
      (op.Complete? || op.Fail?) && ApplyOp(v, op).completedAt == Some(op.now)
    ensures !(op.Complete? || op.Fail?) ==> ApplyOp(v, op).completedAt == v.completedAt
    ensures ApplyOp(v, op).state == Failed && v.state != Failed ==> ApplyOp(v, op).errorMessage == Some(op.reason)
  {
  }

  /** `get_metadata` after `set_metadata` finds the value just set, and
      every other key keeps what it had. */
  lemma MetadataRoundTrip(v: SessionView, key: string, value: string, other: string)
    requires other != key
    ensures MetadataOf(ApplyOp(v, SetMetadata(key, value)), key) == Some(value)
    ensures MetadataOf(ApplyOp(v, SetMetadata(key, value)), other) == MetadataOf(v, other)
  {
  }

  /** `get_metadata`: the value under a key, or `None`. */
  function MetadataOf(v: SessionView, key: string): (r: Option<string>)
    ensures r.Some? <==> key in v.metadata
    ensures r.Some? ==> r.value == v.metadata[key]
  {
    if key in v.metadata then Some(v.metadata[key]) else None
  }

  /** `duration`: from creation to the recorded end, or to `now` while the
      session has not ended; never negative. */
  function Elapsed(createdAt: U64, completedAt: Option<U64>, now: U64): (r: U64)
    ensures completedAt.Some? && completedAt.value >= createdAt ==> r + createdAt == completedAt.value
    ensures completedAt.None? && now >= createdAt ==> r + createdAt == now
    ensures (completedAt.Some? && completedAt.value < createdAt) || (completedAt.None? && now < createdAt) ==> r == 0
  {
    var end := if completedAt.Some? then completedAt.value else now;
    SaturatingSub(end, createdAt)
  }

  /** Once ended, a session's duration no longer depends on the clock; while
      it runs, a later clock never gives a shorter duration. */
  lemma ElapsedClock(createdAt: U64, completedAt: Option<U64>, now1: U64, now2: U64)
    ensures completedAt.Some? ==> Elapsed(createdAt, completedAt, now1) == Elapsed(createdAt, completedAt, now2)
    ensures completedAt.None? && now1 <= now2 ==> Elapsed(createdAt, completedAt, now1) <= Elapsed(createdAt, completedAt, now2)
  {
  }

  class ProcessingSession {
    const id: Id
    var youtubeUrl: string
    var config: Config.ExtractionConfig
    var state: SessionState
    var createdAt: U64
    var completedAt: Option<U64>
    const progress: SessionProgress
    var errorMessage: Option<string>
    var uniqueSlides: U64
    var framesProcessed: U64
    var metadata: map<string, string>

    ghost function View(): SessionView
      reads this, progress
    {
      SessionView(id, youtubeUrl, config, state, createdAt, completedAt, progress.View(),
                  errorMessage, uniqueSlides, framesProcessed, metadata)
    }

    /** `ProcessingSession::new`, given the new id and the clock's reading. */
    constructor (id: Id, youtubeUrl: string, config: Config.ExtractionConfig, now: U64)
      ensures fresh(progress)
      ensures View() == NewView(id, youtubeUrl, config, now)
    {
      this.id := id;
      this.youtubeUrl := youtubeUrl;
      this.config := config;
      state := Created;
      createdAt := now;
      completedAt := None;
      progress := new SessionProgress.Default();
      errorMessage := None;
      uniqueSlides := 0;
      framesProcessed := 0;
      metadata := map[];
    }

    /** `start_processing`. */
    method StartProcessing() returns (r: Result<()>)
      modifies this, progress
      ensures r == Outcome(old(state), Start)
      ensures View() == ApplyOp(old(View()), Start)
    {
      if !CanProcess(state) {
        return Err(InvalidConfig("Cannot start processing session in state: " + StateName(state)));
      }
      state := Running;
      progress.stage := "Processing";
      return Ok(());
    }

    /** `complete`, given the clock's reading. */
    method Complete(now: U64) returns (r: Result<()>)
      modifies this, progress
      ensures r == Outcome(old(state), SessionOp.Complete(now))
      ensures View() == ApplyOp(old(View()), SessionOp.Complete(now))
    {
      if !CanComplete(state) {
        return Err(InvalidConfig("Cannot complete session in state: " + StateName(state)));
      }
      state := Completed;
      completedAt := Some(now);
      progress.stage := "Completed";
      progress.percentage := 1.0;
      return Ok(());
    }

    /** `fail`, given the reason and the clock's reading. */
    method Fail(message: string, now: U64) returns (r: Result<()>)
      modifies this
      ensures r == Outcome(old(state), SessionOp.Fail(message, now))
      ensures View() == ApplyOp(old(View()), SessionOp.Fail(message, now))
    {
      if !CanFail(state) {
        return Err(InvalidConfig("Cannot fail session in state: " + StateName(state)));
      }
      state := Failed;
      errorMessage := Some(message);
      completedAt := Some(now);
      return Ok(());
    }

    /** `update_progress`: a new stage and total, then `update`. */
    method UpdateProgress(stage: string, processed: U64, total: U64, message: Option<string>)
      modifies progress
      ensures View() == ApplyOp(old(View()), SessionOp.UpdateProgress(stage, processed, total, message))
    {
      progress.stage := stage;
      progress.total := total;
      progress.Update(processed, message);
    }

    /** `set_metadata`. */
    method SetMetadata(key: string, value: string)
      modifies this
      ensures View() == ApplyOp(old(View()), SessionOp.SetMetadata(key, value))
    {
      metadata := metadata[key := value];
    }

    /** `get_metadata`. */
    function GetMetadata(key: string): (r: Option<string>)
      reads this
      ensures r == MetadataOf(View(), key)
    {
      if key in metadata then Some(metadata[key]) else None
    }

    /** `duration`, given the clock's reading for a session that has not
        ended. */
    function Duration(now: U64): (r: U64)
      reads this
      ensures completedAt.Some? && completedAt.value >= createdAt ==> r + createdAt == completedAt.value
      ensures completedAt.None? && now >= createdAt ==> r + createdAt == now
      ensures (completedAt.Some? && completedAt.value < createdAt) || (completedAt.None? && now < createdAt) ==> r == 0
    {
      Elapsed(createdAt, completedAt, now)
    }

    /** One operation, as a closure passed to `update_session` would run it. */
    method Apply(op: SessionOp) returns (r: Result<()>)
      modifies this, progress
      ensures r == Outcome(old(state), op)
      ensures View() == ApplyOp(old(View()), op)
    {
      match op
      case Start => r := StartProcessing();
      case Complete(now) => r := Complete(now);
      case Fail(message, now) => r := Fail(message, now);
      case UpdateProgress(stage, processed, total, message) =>
        UpdateProgress(stage, processed, total, message);
        r := Ok(());
      case SetMetadata(key, value) =>
        SetMetadata(key, value);
        r := Ok(());
    }

    /** The derived `Clone`: a new session, with its own progress, equal in
        every field. */
    method Clone() returns (c: ProcessingSession)
      ensures fresh(c) && fresh(c.progress)
      ensures c.View() == View()
    {
      c := new ProcessingSession(id, youtubeUrl, config, createdAt);
      c.state := state;
      c.completedAt := completedAt;
      c.errorMessage := errorMessage;
      c.uniqueSlides := uniqueSlides;
      c.framesProcessed := framesProcessed;
      c.metadata := metadata;
      c.progress.stage := progress.stage;
      c.progress.percentage := progress.percentage;
      c.progress.processed := progress.processed;
      c.progress.total := progress.total;
      c.progress.message := progress.message;
    }
  }

  // ---------------------------------------------------------------------
  // The manager
  // ---------------------------------------------------------------------

  /** The sessions, by id. */
  class SessionManager {
    var sessions: map<Id, ProcessingSession>

    /** Each session is stored under its own id, and no two sessions share
        a progress record. */
    ghost predicate Valid()
      reads this
    {
      (forall k | k in sessions :: sessions[k].id == k) &&
      (forall a, b | a in sessions && b in sessions && a != b :: sessions[a].progress != sessions[b].progress)
    }

    /** `SessionManager::new`: no sessions. */
    constructor ()
      ensures sessions == map[] && Valid()
    {
      sessions := map[];
    }

    /** `create_session`, given the new session's id and the clock's
        reading: the new session is stored under its id, replacing any
        session stored there, and the id is returned. */
    method CreateSession(id: Id, youtubeUrl: string, config: Config.ExtractionConfig, now: U64) returns (r: Result<Id>)
      requires Valid()
      modifies this
      ensures Valid()
      ensures r == Ok(id)
      ensures sessions.Keys == old(sessions).Keys + {id}
      ensures fresh(sessions[id]) && sessions[id].View() == NewView(id, youtubeUrl, config, now)
      ensures forall k | k in old(sessions) && k != id :: sessions[k] == old(sessions)[k]
    {
      var session := new ProcessingSession(id, youtubeUrl, config, now);
      sessions := sessions[id := session];
      return Ok(id);
    }

    /** `get_session`: a copy of the stored session, or `SessionNotFound`. */
    method GetSession(id: Id) returns (r: Result<ProcessingSession>)
      ensures id !in sessions ==> r == Err(SessionNotFound(id))
      ensures id in sessions ==> r.Ok? && fresh(r.value) && r.value.View() == sessions[id].View()
    {
      if id !in sessions {
        return Err(SessionNotFound(id));
      }
      var copy := sessions[id].Clone();
      return Ok(copy);
    }

    /** `update_session` with one of the session's operations: the stored
        session is changed in place and the operation's result returned;
        the other sessions are untouched. */
    method UpdateSession(id: Id, op: SessionOp) returns (r: Result<()>)
      requires Valid()
      modifies if id in sessions then {sessions[id], sessions[id].progress} else {}
      ensures Valid()
      ensures id !in sessions ==> r == Err(SessionNotFound(id))
      ensures id in sessions ==> r == Outcome(old(sessions[id].state), op)
      ensures id in sessions ==> sessions[id].View() == ApplyOp(old(sessions[id].View()), op)
      ensures forall k | k in sessions && k != id :: sessions[k].View() == old(sessions[k].View())
    {
      if id !in sessions {
        return Err(SessionNotFound(id));
      }
      var session := sessions[id];
      r := session.Apply(op);
      forall k | k in sessions && k != id
        ensures sessions[k] != session && sessions[k].progress != session.progress
      {
        assert sessions[k].id == k;
      }
    }

    /** `remove_session`: the stored session is taken out and returned. */
    method RemoveSession(id: Id) returns (r: Result<ProcessingSession>)
      requires Valid()
      modifies this
      ensures Valid()
      ensures id !in old(sessions) ==> r == Err(SessionNotFound(id)) && sessions == old(sessions)
      ensures id in old(sessions) ==> r == Ok(old(sessions)[id]) && sessions == old(sessions) - {id}
    {
      if id !in sessions {
        return Err(SessionNotFound(id));
      }
      r := Ok(sessions[id]);
      sessions := sessions - {id};
    }

    /** `list_sessions`: every stored id once, in no particular order. */
    method ListSessions() returns (r: Result<seq<Id>>)
      ensures r.Ok?
      ensures forall k :: k in r.value <==> k in sessions
      ensures forall i, j | 0 <= i < j < |r.value| :: r.value[i] != r.value[j]
    {
      var ids: seq<Id> := [];
      var rest := sessions.Keys;
      while rest != {}
        invariant rest <= sessions.Keys
        invariant forall k :: k in ids <==> k in sessions && k !in rest
        invariant forall i, j | 0 <= i < j < |ids| :: ids[i] != ids[j]
        decreases |rest|
      {
        var k :| k in rest;
        ids := ids + [k];
        rest := rest - {k};
      }
      return Ok(ids);
    }
  }
}
