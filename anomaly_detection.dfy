/** The proxy-attendance risk engine: seven independent heuristics over a student's recent
    attendance history (and the other recent records of the current session), each adding
    fixed points to a risk score capped at 100.

    The great-circle distance between two positions is a parameter; the local-time minute of
    day of each marking is part of the history entry. */
module AnomalyDetection {
  import opened Wrappers
  import opened Constants
  import opened Geofencing
  import opened Statistics

  /** One earlier attendance record of the student, as the engine reads it. */
  datatype HistoryEntry = HistoryEntry(
    distanceFromClassroom: Option<real>,
    durationMinutes: Option<real>,
    randomChecksPassed: nat,
    randomChecksFailed: nat,
    fingerprint: Option<string>,
    minuteOfDay: int,
    location: Option<Option<bool>>)

  /** A record of the current session as the batch heuristic reads it. */
  datatype MarkedRecord = MarkedRecord(id: string, sessionId: string, markedAt: int, location: Option<Point>)

  datatype Detections = Detections(edge: bool, shortDuration: bool, failedChecks: bool, deviceHopping: bool,
                                   consistentTiming: bool, batch: bool, remote: bool)

  /** The fewest history entries the engine analyses. */
  const MinHistory := 5

  function Points(f: AnomalyFlag): nat {
    match f
    case EdgeMarking => 20
    case ShortDuration => 25
    case FailedRandomChecks => 30
    case DeviceHopping => 15
    case ConsistentTiming => 10
    case BatchMarking => 25
    case RemoteMarking => 20
  }

  /** Position of a flag in the order the engine raises flags. */
  function Rank(f: AnomalyFlag): nat {
    match f
    case EdgeMarking => 0
    case ShortDuration => 1
    case FailedRandomChecks => 2
    case DeviceHopping => 3
    case ConsistentTiming => 4
    case BatchMarking => 5
    case RemoteMarking => 6
  }

  /** The recorded distances (records with none are skipped), in history order: a
      value is listed exactly when some record holds it, and a history where every record holds
      one lists them all, position by position. */
  function Distances(history: seq<HistoryEntry>): (ds: seq<real>)
    ensures |ds| <= |history|
    ensures forall d :: d in ds <==> exists i :: 0 <= i < |history| && history[i].distanceFromClassroom == Some(d)
    ensures (forall i :: 0 <= i < |history| ==> history[i].distanceFromClassroom.Some?) ==>
              |ds| == |history| && forall i :: 0 <= i < |ds| ==> history[i].distanceFromClassroom == Some(ds[i])
  {
    if history == [] then []
    else
      var last, earlier := history[|history| - 1], history[..|history| - 1];
      assert forall i :: 0 <= i < |earlier| ==> earlier[i] == history[i];
      Distances(earlier) + (if last.distanceFromClassroom.Some? then [last.distanceFromClassroom.value] else [])
  }

  /** The computable durations (records without entry or exit time are skipped), in history order: a
      value is listed exactly when some record holds it, and a history where every record holds
      one lists them all, position by position. */
  function Durations(history: seq<HistoryEntry>): (ds: seq<real>)
    ensures |ds| <= |history|
    ensures forall d :: d in ds <==> exists i :: 0 <= i < |history| && history[i].durationMinutes == Some(d)
    ensures (forall i :: 0 <= i < |history| ==> history[i].durationMinutes.Some?) ==>
              |ds| == |history| && forall i :: 0 <= i < |ds| ==> history[i].durationMinutes == Some(ds[i])
  {
    if history == [] then []
    else
      var last, earlier := history[|history| - 1], history[..|history| - 1];
      assert forall i :: 0 <= i < |earlier| ==> earlier[i] == history[i];
      Durations(earlier) + (if last.durationMinutes.Some? then [last.durationMinutes.value] else [])
  }

  /** Marking from the edge of the geofence: at least three distances, averaging over 15 m. */
  predicate DetectEdgeMarking(history: seq<HistoryEntry>) {
    var ds := Distances(history);
    |ds| >= 3 && Sum(ds) / |ds| as real > 15.0
  }

  lemma EdgeMarkingAsSum(history: seq<HistoryEntry>)
    ensures DetectEdgeMarking(history) <==>
              |Distances(history)| >= 3 && Sum(Distances(history)) > 15.0 * |Distances(history)| as real
  {
    var ds := Distances(history);
    if |ds| >= 3 {
      MeanCompare(Sum(ds), |ds|, 15.0);
    }
  }

  /** Leaving early: at least three durations, averaging under 10 minutes. */
  predicate DetectShortDuration(history: seq<HistoryEntry>) {
    var ds := Durations(history);
    |ds| >= 3 && Sum(ds) / |ds| as real < 10.0
  }

  lemma ShortDurationAsSum(history: seq<HistoryEntry>)
    ensures DetectShortDuration(history) <==>
              |Durations(history)| >= 3 && Sum(Durations(history)) < 10.0 * |Durations(history)| as real
  {
    var ds := Durations(history);
    if |ds| >= 3 {
      MeanCompare(Sum(ds), |ds|, 10.0);
    }
  }

  function TotalChecks(history: seq<HistoryEntry>): nat {
    if history == [] then 0
    else TotalChecks(history[..|history| - 1]) +
         history[|history| - 1].randomChecksPassed + history[|history| - 1].randomChecksFailed
  }

  /** The failed random checks over the history: none exactly when no record failed one, and
      all of them exactly when no record passed one. */
  function FailedChecks(history: seq<HistoryEntry>): (n: nat)
    ensures n <= TotalChecks(history)
    ensures n == 0 <==> forall i :: 0 <= i < |history| ==> history[i].randomChecksFailed == 0
    ensures n == TotalChecks(history) <==> forall i :: 0 <= i < |history| ==> history[i].randomChecksPassed == 0
  {
    if history == [] then 0
    else
      var earlier := history[..|history| - 1];
      assert forall i :: 0 <= i < |earlier| ==> earlier[i] == history[i];
      FailedChecks(earlier) + history[|history| - 1].randomChecksFailed
  }

  /** Failing random checks: at least five checks, more than 40% of them failed. */
  predicate DetectFailedRandomChecks(history: seq<HistoryEntry>) {
    TotalChecks(history) >= 5 && FailedChecks(history) as real / TotalChecks(history) as real > 0.4
  }

  lemma FailedChecksAsIntegers(history: seq<HistoryEntry>)
    ensures DetectFailedRandomChecks(history) <==>
              TotalChecks(history) >= 5 && 5 * FailedChecks(history) > 2 * TotalChecks(history)
  {
    var f, t := FailedChecks(history), TotalChecks(history);
    if t >= 5 {
      MeanCompare(f as real, t, 0.4);
      assert f as real > 0.4 * t as real <==> (5 * f) as real > (2 * t) as real;
    }
  }

  /** The distinct device fingerprints in the history (absent and empty ones are ignored). */
  function Devices(history: seq<HistoryEntry>): (ds: set<string>)
    ensures |ds| <= |history|
    ensures forall d :: d in ds <==> d != "" && exists i :: 0 <= i < |history| && history[i].fingerprint == Some(d)
  {
    if history == [] then {}
    else
      var last := history[|history| - 1];
      assert forall i :: 0 <= i < |history| - 1 ==> history[..|history| - 1][i] == history[i];
      var earlier := Devices(history[..|history| - 1]);
      if last.fingerprint.Some? && last.fingerprint.value != "" then
        CardAdd(earlier, last.fingerprint.value);
        earlier + {last.fingerprint.value}
      else earlier
  }

  lemma CardAdd(s: set<string>, x: string)
    ensures |s + {x}| <= |s| + 1
  {
    if x in s {
      assert s + {x} == s;
    }
  }

  /** Switching devices: more than three distinct fingerprints. */
  predicate DetectDeviceHopping(history: seq<HistoryEntry>) {
    |Devices(history)| > 3
  }

  /** Device hopping needs at least four records. */
  lemma DeviceHoppingNeedsFourRecords(history: seq<HistoryEntry>)
    requires DetectDeviceHopping(history)
    ensures |history| >= 4
  {
  }

  function MinutesOf(history: seq<HistoryEntry>): (ts: seq<int>)
    ensures |ts| == |history| && forall i :: 0 <= i < |history| ==> ts[i] == history[i].minuteOfDay
  {
    if history == [] then [] else MinutesOf(history[..|history| - 1]) + [history[|history| - 1].minuteOfDay]
  }

  /** Marking at the same minute every day: at least five markings whose standard deviation
      of minute-of-day is under 2, that is whose variance is under 4. */
  predicate DetectConsistentTiming(history: seq<HistoryEntry>) {
    |history| >= 5 && Variance(MinutesOf(history)) < 4.0
  }

  /** The timing test in integers: with n markings summing to S, variance under 4 is the sum of
      (n t - S)^2 being under 4 n^3. */
  lemma ConsistentTimingAsIntegers(history: seq<HistoryEntry>)
    ensures DetectConsistentTiming(history) <==>
              |history| >= 5 &&
              IntSum(ScaledDeviations(MinutesOf(history), IntSum(MinutesOf(history)), |history|))
                < 4 * |history| * |history| * |history|
  {
    if |history| >= 5 {
      var ts, n := MinutesOf(history), |history|;
      VarianceAsIntegers(ts, n);
    }
  }

  /** Whether the record is of the current session, marked no earlier than a minute before the
      current record, and not the current record itself. */
  predicate Recent(current: MarkedRecord, r: MarkedRecord) {
    r.sessionId == current.sessionId && r.markedAt >= current.markedAt - 60000 && r.id != current.id
  }

  predicate Close(current: MarkedRecord, r: MarkedRecord, distance: (Point, Point) -> real) {
    current.location.Some? && r.location.Some? && distance(current.location.value, r.location.value) < 5.0
  }

  /** The other recent records of the session marked within 5 m of the current one. */
  function SimilarLocations(current: MarkedRecord, records: seq<MarkedRecord>, distance: (Point, Point) -> real)
    : (rs: seq<MarkedRecord>)
    ensures |rs| <= |records|
    ensures forall r :: r in rs ==> r in records && Recent(current, r) && Close(current, r, distance)
    ensures forall r :: r in records && Recent(current, r) && Close(current, r, distance) ==> r in rs
  {
    if records == [] then []
    else
      var last := records[|records| - 1];
      var earlier := SimilarLocations(current, records[..|records| - 1], distance);
      if Recent(current, last) && Close(current, last, distance) then earlier + [last] else earlier
  }

  /** Several students marking together: two or more other recent records within 5 m. */
  predicate DetectBatchMarking(current: MarkedRecord, records: seq<MarkedRecord>, distance: (Point, Point) -> real) {
    |SimilarLocations(current, records, distance)| >= 2
  }

  /** A record with no location is never part of a batch. */
  lemma NoLocationNoBatch(current: MarkedRecord, records: seq<MarkedRecord>, distance: (Point, Point) -> real)
    requires current.location.None?
    ensures !DetectBatchMarking(current, records, distance)
  {
    if |SimilarLocations(current, records, distance)| > 0 {
      assert SimilarLocations(current, records, distance)[0] in SimilarLocations(current, records, distance);
    }
  }

  /** Whether a record counts as marked on campus: only an explicit "not on campus" does not. */
  predicate OnCampus(h: HistoryEntry) {
    !(h.location.Some? && h.location.value == Some(false))
  }

  /** The records counted as on campus: all of them exactly when none is explicitly off
      campus, and none exactly when every one is. */
  function OnCampusCount(history: seq<HistoryEntry>): (n: nat)
    ensures n <= |history|
    ensures n == |history| <==> forall i :: 0 <= i < |history| ==> OnCampus(history[i])
    ensures n == 0 <==> forall i :: 0 <= i < |history| ==> !OnCampus(history[i])
  {
    if history == [] then 0
    else
      var earlier := history[..|history| - 1];
      assert forall i :: 0 <= i < |earlier| ==> earlier[i] == history[i];
      OnCampusCount(earlier) + (if OnCampus(history[|history| - 1]) then 1 else 0)
  }

  /** Marking from off campus: more than 20% of the history explicitly off campus. */
  predicate DetectRemoteMarking(history: seq<HistoryEntry>) {
    |history| > 0 && 1.0 - OnCampusCount(history) as real / |history| as real > 0.2
  }

  lemma RemoteMarkingAsIntegers(history: seq<HistoryEntry>)
    ensures DetectRemoteMarking(history) <==>
              |history| > 0 && 5 * (|history| - OnCampusCount(history)) > |history|
  {
    if |history| > 0 {
      OffCampusRate(OnCampusCount(history), |history|);
    }
  }

  lemma OffCampusRate(c: nat, n: nat)
    requires 0 < n
    ensures 1.0 - c as real / n as real > 0.2 <==> 5 * (n - c) > n
  {
    MeanCompare(c as real, n, 0.8);
    assert c as real < 0.8 * n as real <==> (5 * c) as real < (4 * n) as real;
  }

  function Detect(history: seq<HistoryEntry>, current: MarkedRecord, records: seq<MarkedRecord>,
                  distance: (Point, Point) -> real): Detections {
    Detections(DetectEdgeMarking(history), DetectShortDuration(history), DetectFailedRandomChecks(history),
               DetectDeviceHopping(history), DetectConsistentTiming(history),
               DetectBatchMarking(current, records, distance), DetectRemoteMarking(history))
  }

  /** The number of heuristics. */
  const HeuristicCount := 7

  /** The flag of the `i`-th heuristic, in the order the engine runs them. */
  function FlagAt(i: nat): (f: AnomalyFlag)
    requires i < HeuristicCount
    ensures Rank(f) == i
  {
    [EdgeMarking, ShortDuration, FailedRandomChecks, DeviceHopping, ConsistentTiming, BatchMarking, RemoteMarking][i]
  }

  /** Whether the `i`-th heuristic fired. */
  function Fired(d: Detections, i: nat): bool
    requires i < HeuristicCount
  {
    match i
    case 0 => d.edge
    case 1 => d.shortDuration
    case 2 => d.failedChecks
    case 3 => d.deviceHopping
    case 4 => d.consistentTiming
    case 5 => d.batch
    case _ => d.remote
  }

  /** `flags` with `f` pushed when `raised`. */
  function Push(flags: seq<AnomalyFlag>, raised: bool, f: AnomalyFlag): seq<AnomalyFlag> {
    flags + (if raised then [f] else [])
  }

  /** The flags raised by the first `k` heuristics. */
  function FlagsUpTo(d: Detections, k: nat): seq<AnomalyFlag>
    requires k <= HeuristicCount
  {
    if k == 0 then [] else Push(FlagsUpTo(d, k - 1), Fired(d, k - 1), FlagAt(k - 1))
  }

  /** The flags raised by a set of detections, in the engine's fixed order. */
  function FlagsOf(d: Detections): seq<AnomalyFlag> {
    FlagsUpTo(d, HeuristicCount)
  }

  function PointsOf(flags: seq<AnomalyFlag>): nat {
    if flags == [] then 0 else PointsOf(flags[..|flags| - 1]) + Points(flags[|flags| - 1])
  }

  /** The points of the heuristics among the first `k` that fired. */
  function FiredPoints(d: Detections, k: nat): nat
    requires k <= HeuristicCount
  {
    if k == 0 then 0 else FiredPoints(d, k - 1) + (if Fired(d, k - 1) then Points(FlagAt(k - 1)) else 0)
  }

  lemma PushPoints(flags: seq<AnomalyFlag>, raised: bool, f: AnomalyFlag)
    ensures PointsOf(Push(flags, raised, f)) == PointsOf(flags) + (if raised then Points(f) else 0)
  {
    if raised {
      assert (flags + [f])[..|flags|] == flags;
    } else {
      assert flags + [] == flags;
    }
  }

  /** The flags of the first `k` heuristics are in ascending rank, all below `k`. */
  lemma {:induction false} FlagsUpToRanked(d: Detections, k: nat)
    requires k <= HeuristicCount
    ensures forall i, j :: 0 <= i < j < |FlagsUpTo(d, k)| ==> Rank(FlagsUpTo(d, k)[i]) < Rank(FlagsUpTo(d, k)[j])
    ensures forall i :: 0 <= i < |FlagsUpTo(d, k)| ==> Rank(FlagsUpTo(d, k)[i]) < k
  {
    if k > 0 {
      FlagsUpToRanked(d, k - 1);
    }
  }

  /** A flag is among those of the first `k` heuristics exactly when its heuristic is one of
      them and fired. */
  lemma {:induction false} FlagsUpToMembers(d: Detections, k: nat, g: AnomalyFlag)
    requires k <= HeuristicCount
    ensures g in FlagsUpTo(d, k) <==> Rank(g) < k && Fired(d, Rank(g))
  {
    if k > 0 {
      FlagsUpToMembers(d, k - 1, g);
      if Rank(g) == k - 1 {
        assert g == FlagAt(k - 1);
      }
    }
  }

  lemma {:induction false} FlagsUpToPoints(d: Detections, k: nat)
    requires k <= HeuristicCount
    ensures PointsOf(FlagsUpTo(d, k)) == FiredPoints(d, k)
  {
    if k > 0 {
      FlagsUpToPoints(d, k - 1);
      PushPoints(FlagsUpTo(d, k - 1), Fired(d, k - 1), FlagAt(k - 1));
    }
  }

  /** The raised flags are in ascending rank, hence each appears at most once. */
  lemma FlagsOrdered(d: Detections)
    ensures forall i, j :: 0 <= i < j < |FlagsOf(d)| ==> Rank(FlagsOf(d)[i]) < Rank(FlagsOf(d)[j])
    ensures forall i, j :: 0 <= i < j < |FlagsOf(d)| ==> FlagsOf(d)[i] != FlagsOf(d)[j]
  {
    FlagsUpToRanked(d, HeuristicCount);
  }

  /** A flag is raised exactly when its heuristic fires. */
  lemma FlagsFaithful(d: Detections, g: AnomalyFlag)
    ensures g in FlagsOf(d) <==> Fired(d, Rank(g))
  {
    FlagsUpToMembers(d, HeuristicCount, g);
  }

  /** The uncapped score is the points of the heuristics that fired; all seven give 145. */
  lemma FlagsPoints(d: Detections)
    ensures PointsOf(FlagsOf(d)) ==
              (if d.edge then 20 else 0) + (if d.shortDuration then 25 else 0) + (if d.failedChecks then 30 else 0) +
              (if d.deviceHopping then 15 else 0) + (if d.consistentTiming then 10 else 0) +
              (if d.batch then 25 else 0) + (if d.remote then 20 else 0)
  {
    FlagsUpToPoints(d, HeuristicCount);
    AllFiredPoints(d);
  }

  lemma AllFiredPoints(d: Detections)
    ensures FiredPoints(d, HeuristicCount) ==
              (if d.edge then 20 else 0) + (if d.shortDuration then 25 else 0) + (if d.failedChecks then 30 else 0) +
              (if d.deviceHopping then 15 else 0) + (if d.consistentTiming then 10 else 0) +
              (if d.batch then 25 else 0) + (if d.remote then 20 else 0)
  {
    FirstFiredPoints(d);
    LastFiredPoints(d);
  }

  lemma FirstFiredPoints(d: Detections)
    ensures FiredPoints(d, 4) ==
              (if d.edge then 20 else 0) + (if d.shortDuration then 25 else 0) + (if d.failedChecks then 30 else 0) +
              (if d.deviceHopping then 15 else 0)
  {
    FiredPointsStep(d, 0, if d.edge then 20 else 0);
    FiredPointsStep(d, 1, if d.shortDuration then 25 else 0);
    FiredPointsStep(d, 2, if d.failedChecks then 30 else 0);
    FiredPointsStep(d, 3, if d.deviceHopping then 15 else 0);
  }

  lemma LastFiredPoints(d: Detections)
    ensures FiredPoints(d, 7) == FiredPoints(d, 4) +
              (if d.consistentTiming then 10 else 0) + (if d.batch then 25 else 0) + (if d.remote then 20 else 0)
  {
    FiredPointsStep(d, 4, if d.consistentTiming then 10 else 0);
    FiredPointsStep(d, 5, if d.batch then 25 else 0);
    FiredPointsStep(d, 6, if d.remote then 20 else 0);
  }

  /** The `k`-th heuristic adds its points when it fired. */
  lemma FiredPointsStep(d: Detections, k: nat, x: nat)
    requires k < HeuristicCount && x == (if Fired(d, k) then Points(FlagAt(k)) else 0)
    ensures FiredPoints(d, k + 1) == FiredPoints(d, k) + x
  {
  }

  /** The `k`-th heuristic's contribution: push its flag and add its points when it fired. */
  method Raise(d: Detections, k: nat, flags: seq<AnomalyFlag>, score: nat)
    returns (flags': seq<AnomalyFlag>, score': nat)
    requires k < HeuristicCount
    requires flags == FlagsUpTo(d, k) && score == PointsOf(flags)
    ensures flags' == FlagsUpTo(d, k + 1)
    ensures score' == PointsOf(flags')
  {
    PushPoints(flags, Fired(d, k), FlagAt(k));
    flags', score' := flags, score;
    if Fired(d, k) {
      flags' := flags + [FlagAt(k)];
      score' := score + Points(FlagAt(k));
    }
  }

  /** The seven heuristics' contributions in the engine's order: edge marking, short
      duration, failed random checks, device hopping, consistent timing, batch marking,
      remote marking. */
  method RaiseAll(d: Detections) returns (flags: seq<AnomalyFlag>, score: nat)
    ensures flags == FlagsOf(d)
    ensures score == PointsOf(flags)
  {
    flags, score := [], 0;
    flags, score := Raise(d, 0, flags, score);
    flags, score := Raise(d, 1, flags, score);
    flags, score := Raise(d, 2, flags, score);
    flags, score := Raise(d, 3, flags, score);
    flags, score := Raise(d, 4, flags, score);
    flags, score := Raise(d, 5, flags, score);
    flags, score := Raise(d, 6, flags, score);
  }

  /** The engine's answer for a student: no flags and risk 0 for a history under five
      records; otherwise the raised flags and their points capped at 100. */
  method AnalyzeAttendancePattern(history: seq<HistoryEntry>, current: MarkedRecord, records: seq<MarkedRecord>,
                                  distance: (Point, Point) -> real)
    returns (flags: seq<AnomalyFlag>, riskScore: nat)
    ensures |history| < MinHistory ==> flags == [] && riskScore == 0
    ensures |history| >= MinHistory ==> flags == FlagsOf(Detect(history, current, records, distance))
    ensures riskScore == Min(PointsOf(flags), 100)
    ensures riskScore <= 100
  {
    if |history| < MinHistory {
      return [], 0;
    }
    var score;
    flags, score := RaiseAll(Detect(history, current, records, distance));
    riskScore := Min(score, 100);
  }
}
