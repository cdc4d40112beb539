// Memory monitoring: a running peak of recorded usage, a byte threshold and
// a warning fraction, and the checks made against the current resident size.
// The current size comes from the text of the process status file, passed
// in by the caller (`None` when it cannot be read).

module Memory {
  import opened Strings
  import opened Errors

  const MiB: nat := 1024 * 1024
  const U64: nat := 0x1_0000_0000_0000_0000

  datatype MemoryUsage = MemoryUsage(currentBytes: nat, peakBytes: nat, thresholdBytes: nat)

  /** Whole mebibytes, rounded down. */
  function ToMb(bytes: nat): (mb: nat)
    ensures mb * MiB <= bytes < (mb + 1) * MiB
  {
    bytes / MiB
  }

  function CurrentMb(u: MemoryUsage): nat { ToMb(u.currentBytes) }
  function PeakMb(u: MemoryUsage): nat { ToMb(u.peakBytes) }
  function ThresholdMb(u: MemoryUsage): nat { ToMb(u.thresholdBytes) }

  /** `utilization_percent`: current usage as a percentage of the threshold,
      0 for a zero threshold. */
  function UtilizationPercent(u: MemoryUsage): (p: real)
    ensures p >= 0.0
    ensures u.thresholdBytes == 0 ==> p == 0.0
    ensures u.thresholdBytes > 0 ==> (p > 100.0 <==> u.currentBytes > u.thresholdBytes)
    ensures u.thresholdBytes > 0 ==> (p == 100.0 <==> u.currentBytes == u.thresholdBytes)
  {
    if u.thresholdBytes == 0 then 0.0
    else
      var f := u.currentBytes as real / u.thresholdBytes as real;
      RatioAgainstOne(u.currentBytes, u.thresholdBytes);
      f * 100.0
  }

  /** A ratio of naturals compares with 1 as its numerator does with its
      denominator. */
  lemma RatioAgainstOne(c: nat, t: nat)
    requires t > 0
    ensures c as real / t as real >= 0.0
    ensures c as real / t as real > 1.0 <==> c > t
    ensures c as real / t as real == 1.0 <==> c == t
  {
    var f := c as real / t as real;
    assert f * t as real == c as real;
    assert (f - 1.0) * t as real == c as real - t as real;
    if f > 1.0 { assert (f - 1.0) * t as real > 0.0; }
    if f < 1.0 { assert (1.0 - f) * t as real > 0.0; }
  }

  /** Converting a whole number of mebibytes to bytes and back is exact. */
  lemma ToMbOfWhole(mb: nat)
    ensures ToMb(mb * MiB) == mb
  {
  }

  lemma MemoryUsageExample()
    ensures var u := MemoryUsage(400 * MiB, 500 * MiB, 500 * MiB);
      CurrentMb(u) == 400 && PeakMb(u) == 500 && ThresholdMb(u) == 500
  {
    ToMbOfWhole(400);
    ToMbOfWhole(500);
  }

  /** A "VmRSS:" line whose second whitespace-separated field parses as a
      `u64`. */
  predicate RssLine(line: string)
  {
    StartsWith(line, "VmRSS:") && |Words(line)| >= 2 && ParseUnsigned(Words(line)[1], U64).Some?
  }

  /** The byte count such a line states (the field counts KiB). */
  function RssOf(line: string): nat
    requires RssLine(line)
  {
    ParseUnsigned(Words(line)[1], U64).value * 1024
  }

  /** The resident size from the status text: the first line that `RssLine`
      accepts, or nothing when none does (see `RssFirstLine`). */
  function RssFromLines(lines: seq<string>): Option<nat>
  {
    if lines == [] then None
    else if RssLine(lines[0]) then Some(RssOf(lines[0]))
    else RssFromLines(lines[1..])
  }

  /** The scan finds a size exactly when some line states one. */
  lemma {:induction false} RssFoundIff(lines: seq<string>)
    ensures RssFromLines(lines).Some? <==> exists i :: 0 <= i < |lines| && RssLine(lines[i])
  {
    if lines != [] {
      if RssLine(lines[0]) {
        assert 0 < |lines| && RssLine(lines[0]);
      } else {
        var tail := lines[1..];
        RssFoundIff(tail);
        if i :| 0 <= i < |lines| && RssLine(lines[i]) {
          assert tail[i - 1] == lines[i];
        }
        if i :| 0 <= i < |tail| && RssLine(tail[i]) {
          assert lines[i + 1] == tail[i];
        }
      }
    }
  }

  /** A size found is that of the first line stating one. */
  lemma {:induction false} RssFirstLine(lines: seq<string>)
    requires RssFromLines(lines).Some?
    ensures exists i :: 0 <= i < |lines| && RssLine(lines[i]) && RssFromLines(lines).value == RssOf(lines[i]) &&
                        forall j :: 0 <= j < i ==> !RssLine(lines[j])
  {
    if RssLine(lines[0]) {
      assert RssLine(lines[0]) && RssFromLines(lines).value == RssOf(lines[0]);
    } else {
      var tail := lines[1..];
      RssFirstLine(tail);
      var i :| 0 <= i < |tail| && RssLine(tail[i]) && RssFromLines(tail).value == RssOf(tail[i]) &&
               forall j :: 0 <= j < i ==> !RssLine(tail[j]);
      assert lines[i + 1] == tail[i];
      forall j | 0 <= j < i + 1
        ensures !RssLine(lines[j])
      {
        if j > 0 {
          assert lines[j] == tail[j - 1];
        }
      }
    }
  }

  class MemoryMonitor {
    var peakBytes: nat
    var thresholdBytes: nat
    var warningThresholdPercent: real

    /** The warning fraction is kept within [0, 1]. */
    ghost predicate Valid()
      reads this
    {
      0.0 <= warningThresholdPercent <= 1.0
    }

    /** `new` (and `Default`): 500 MiB and a warning at 80%. */
    constructor ()
      ensures peakBytes == 0 && thresholdBytes == 500 * MiB && warningThresholdPercent == 0.8
      ensures Valid()
    {
      peakBytes := 0;
      thresholdBytes := 500 * MiB;
      warningThresholdPercent := 0.8;
    }

    /** `with_threshold`: the threshold in MiB and the warning fraction
        clamped into [0, 1]. */
    constructor WithThreshold(thresholdMb: nat, warning: real)
      ensures peakBytes == 0 && thresholdBytes == thresholdMb * MiB
      ensures warningThresholdPercent == if warning < 0.0 then 0.0 else if warning > 1.0 then 1.0 else warning
      ensures Valid()
    {
      peakBytes := 0;
      thresholdBytes := thresholdMb * 1024 * 1024;
      warningThresholdPercent := if warning < 0.0 then 0.0 else if warning > 1.0 then 1.0 else warning;
    }

    /** `record_usage`: the peak becomes the larger of itself and `bytes`. */
    method RecordUsage(bytes: nat)
      modifies this
      ensures peakBytes == if bytes > old(peakBytes) then bytes else old(peakBytes)
      ensures peakBytes >= old(peakBytes) && peakBytes >= bytes
      ensures thresholdBytes == old(thresholdBytes) && warningThresholdPercent == old(warningThresholdPercent)
    {
      var currentPeak := peakBytes;
      if bytes > currentPeak {
        peakBytes := bytes;
      }
    }

    /** `get_current_bytes`: the resident size when the status text gives
        one, the recorded peak otherwise. */
    function CurrentBytes(status: Option<string>): (r: nat)
      reads this
      ensures status.None? ==> r == peakBytes
      ensures status.Some? && RssFromLines(Lines(status.value)).Some? ==> r == RssFromLines(Lines(status.value)).value
    {
      if status.Some? && RssFromLines(Lines(status.value)).Some? then RssFromLines(Lines(status.value)).value
      else peakBytes
    }

    /** `get_usage`. */
    function GetUsage(status: Option<string>): (u: MemoryUsage)
      reads this
      ensures u.currentBytes == CurrentBytes(status) && u.peakBytes == peakBytes && u.thresholdBytes == thresholdBytes
    {
      MemoryUsage(CurrentBytes(status), peakBytes, thresholdBytes)
    }

    /** `exceeds_threshold`: strictly above the threshold. */
    function ExceedsThreshold(status: Option<string>): (b: bool)
      reads this
      ensures b <==> CurrentBytes(status) > thresholdBytes
    {
      CurrentBytes(status) > thresholdBytes
    }

    /** The warning level: the threshold times the fraction, truncated. */
    function WarningBytes(): (w: int)
      reads this
      ensures Valid() ==> 0 <= w <= thresholdBytes
    {
      var w := (thresholdBytes as real * warningThresholdPercent).Floor;
      assert Valid() ==> 0 <= w <= thresholdBytes by {
        if Valid() { WarningLevelBound(thresholdBytes, warningThresholdPercent); }
      }
      w
    }

    /** `approaching_threshold`: strictly above the warning level. */
    function ApproachingThreshold(status: Option<string>): (b: bool)
      reads this
      ensures b <==> CurrentBytes(status) > WarningBytes()
    {
      CurrentBytes(status) > WarningBytes()
    }

    /** `validate`: an error carrying the current and threshold sizes in MiB
        exactly when the threshold is exceeded. */
    function Validate(status: Option<string>): (r: Result<()>)
      reads this
      ensures r.Err? <==> ExceedsThreshold(status)
      ensures r.Err? ==> r.error == MemoryThresholdExceeded(ToMb(CurrentBytes(status)), ToMb(thresholdBytes))
    {
      if ExceedsThreshold(status) then
        var usage := GetUsage(status);
        Err(MemoryThresholdExceeded(CurrentMb(usage), ThresholdMb(usage)))
      else Ok(())
    }

    /** Exceeding the threshold implies approaching it, since the warning
        level never lies above the threshold. */
    lemma ExceedsImpliesApproaching(status: Option<string>)
      requires Valid()
      ensures ExceedsThreshold(status) ==> ApproachingThreshold(status)
    {
    }
  }

  /** With a positive threshold, validation fails exactly when the usage
      report shows more than 100% utilization. */
  lemma ValidateIffOverFull(m: MemoryMonitor, status: Option<string>)
    requires m.thresholdBytes > 0
    ensures m.Validate(status).Err? <==> UtilizationPercent(m.GetUsage(status)) > 100.0
  {
  }

  lemma WarningLevelBound(t: nat, f: real)
    requires 0.0 <= f <= 1.0
    ensures 0 <= (t as real * f).Floor <= t
  {
    assert 0.0 <= t as real * f <= t as real;
  }

  /** The recorded peaks 100, 200 and 150 MiB leave a peak of 200 MiB. */
  method RecordUsageExample() returns (peak: nat)
    ensures peak == 200 * MiB
  {
    var monitor := new MemoryMonitor();
    monitor.RecordUsage(100 * MiB);
    monitor.RecordUsage(200 * MiB);
    monitor.RecordUsage(150 * MiB);
    peak := monitor.peakBytes;
  }

  /** With no status text the current size is the peak: a 600 MiB peak
      fails with 600 and 500 MiB in the error, and a 400 MiB peak validates. */
  method ValidateExample() returns (over: Result<()>, under: Result<()>)
    ensures over == Err(MemoryThresholdExceeded(600, 500))
    ensures under == Ok(())
  {
    var monitor := new MemoryMonitor();
    monitor.RecordUsage(600 * MiB);
    over := monitor.Validate(None);
    ToMbOfWhole(600);
    ToMbOfWhole(500);
    var quiet := new MemoryMonitor();
    quiet.RecordUsage(400 * MiB);
    under := quiet.Validate(None);
  }
}
