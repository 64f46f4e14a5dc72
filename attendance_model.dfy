/** The attendance record of one student for one session, its in-place updates, and the
    table of records keyed by the (user, session) pair the storage layer keeps unique. */
module AttendanceModel {
  import opened Wrappers
  import opened Constants
  import opened Geofencing

  /** An external evaluator's answer (face match, liveness): its verdict and, when it gives
      one, its confidence. */
  datatype Evaluation = Evaluation(verified: bool, confidence: Option<real>)

  /** How one verification factor fared: verified or not, the points it earned, and what it
      reported. */
  datatype FactorResult = FactorResult(verified: bool, score: nat, confidence: Option<real>,
                                       distance: Option<nat>)

  const Unverified := FactorResult(false, 0, None, None)

  datatype VerificationMethods = VerificationMethods(
    face: FactorResult, liveness: FactorResult, qr: FactorResult,
    location: FactorResult, wifi: FactorResult, beacon: FactorResult)

  /** The evidence a claim leaves on its record. */
  datatype Evidence = Evidence(
    verificationMethods: VerificationMethods,
    location: Option<Location>,
    distanceFromClassroom: Option<nat>,
    deviceInfo: Option<string>,
    ipAddress: string,
    qrToken: string,
    qrScanTime: int,
    faceMatchConfidence: Option<real>,
    livenessScore: Option<real>)

  /** The fields a claim writes, whether it creates the record or overwrites it. */
  datatype AttendanceData = AttendanceData(
    status: AttendanceStatus,
    evidence: Evidence,
    verificationScore: nat,
    requiresManualReview: bool,
    manualReviewReason: Option<string>,
    anomalyFlags: seq<AnomalyFlag>,
    riskScore: nat,
    entryTime: int)

  datatype RandomCheck = RandomCheck(checkId: string, passed: bool, location: LocationResult,
                                     face: Evaluation, timestamp: int)

  /** How many of `checks` passed. */
  function PassedCount(checks: seq<RandomCheck>): (n: nat)
    ensures n <= |checks|
  {
    if checks == [] then 0
    else PassedCount(checks[..|checks| - 1]) + (if checks[|checks| - 1].passed then 1 else 0)
  }

  lemma PassedCountAppend(checks: seq<RandomCheck>, c: RandomCheck)
    ensures PassedCount(checks + [c]) == PassedCount(checks) + (if c.passed then 1 else 0)
  {
    assert (checks + [c])[..|checks|] == checks;
  }

  /** Duration in minutes between entry and exit; none unless both are recorded. */
  function Duration(entryTime: Option<int>, exitTime: Option<int>): (d: Option<real>)
    ensures d.Some? <==> entryTime.Some? && exitTime.Some?
    ensures d.Some? ==> d.value * 60000.0 == (exitTime.value - entryTime.value) as real
  {
    if entryTime.None? || exitTime.None? then None
    else Some((exitTime.value - entryTime.value) as real / 1000.0 / 60.0)
  }

  class AttendanceRecord {
    const id: string
    const userId: string
    const sessionId: string
    var status: AttendanceStatus
    var markedAt: int
    var evidence: Option<Evidence>
    var verificationScore: nat
    var requiresManualReview: bool
    var manualReviewReason: Option<string>
    var reviewedBy: Option<string>
    var reviewedAt: Option<int>
    var reviewNotes: Option<string>
    var anomalyFlags: seq<AnomalyFlag>
    var riskScore: nat
    var entryTime: Option<int>
    var exitTime: Option<int>
    var randomChecks: seq<RandomCheck>
    var randomChecksPassed: nat
    var randomChecksFailed: nat

    /** The pass and fail counters agree with the list of checks. */
    ghost predicate CountersAgree()
      reads this
    {
      randomChecksPassed == PassedCount(randomChecks) &&
      randomChecksFailed == |randomChecks| - PassedCount(randomChecks)
    }

    /** A new record from a claim; every field the claim does not write takes its default. */
    constructor Create(id: string, userId: string, sessionId: string, data: AttendanceData, now: int)
      ensures this.id == id && this.userId == userId && this.sessionId == sessionId
      ensures Holds(data)
      ensures markedAt == now
      ensures reviewedBy.None? && reviewedAt.None? && reviewNotes.None? && exitTime.None?
      ensures randomChecks == [] && randomChecksPassed == 0 && randomChecksFailed == 0
      ensures CountersAgree()
    {
      this.id, this.userId, this.sessionId := id, userId, sessionId;
      status := data.status;
      markedAt := now;
      evidence := Some(data.evidence);
      verificationScore := data.verificationScore;
      requiresManualReview := data.requiresManualReview;
      manualReviewReason := data.manualReviewReason;
      reviewedBy, reviewedAt, reviewNotes := None, None, None;
      anomalyFlags := data.anomalyFlags;
      riskScore := data.riskScore;
      entryTime, exitTime := Some(data.entryTime), None;
      randomChecks := [];
      randomChecksPassed, randomChecksFailed := 0, 0;
    }

    /** A record with only its keys set: every field takes its schema default. */
    constructor Default(id: string, userId: string, sessionId: string, now: int)
      ensures this.id == id && this.userId == userId && this.sessionId == sessionId
      ensures status == PendingReview && markedAt == now && evidence.None?
      ensures verificationScore == 0 && riskScore == 0 && !requiresManualReview && anomalyFlags == []
      ensures randomChecks == [] && randomChecksPassed == 0 && randomChecksFailed == 0
      ensures entryTime.None? && exitTime.None?
      ensures CountersAgree()
    {
      this.id, this.userId, this.sessionId := id, userId, sessionId;
      status := PendingReview;
      markedAt := now;
      evidence := None;
      verificationScore := 0;
      requiresManualReview := false;
      manualReviewReason := None;
      reviewedBy, reviewedAt, reviewNotes := None, None, None;
      anomalyFlags := [];
      riskScore := 0;
      entryTime, exitTime := None, None;
      randomChecks := [];
      randomChecksPassed, randomChecksFailed := 0, 0;
    }

    /** The record carries exactly what `data` writes. */
    ghost predicate Holds(data: AttendanceData)
      reads this
    {
      status == data.status && evidence == Some(data.evidence) &&
      verificationScore == data.verificationScore &&
      requiresManualReview == data.requiresManualReview &&
      manualReviewReason == data.manualReviewReason &&
      anomalyFlags == data.anomalyFlags && riskScore == data.riskScore &&
      entryTime == Some(data.entryTime)
    }

    /** Overwrites the fields a claim writes; the marking time, review fields, exit time and
        random checks are kept. */
    method Update(data: AttendanceData)
      modifies this
      ensures Holds(data)
      ensures markedAt == old(markedAt) && exitTime == old(exitTime)
      ensures reviewedBy == old(reviewedBy) && reviewedAt == old(reviewedAt) && reviewNotes == old(reviewNotes)
      ensures randomChecks == old(randomChecks)
      ensures randomChecksPassed == old(randomChecksPassed) && randomChecksFailed == old(randomChecksFailed)
    {
      status := data.status;
      evidence := Some(data.evidence);
      verificationScore := data.verificationScore;
      requiresManualReview := data.requiresManualReview;
      manualReviewReason := data.manualReviewReason;
      anomalyFlags := data.anomalyFlags;
      riskScore := data.riskScore;
      entryTime := Some(data.entryTime);
    }

    method MarkAsPresent(now: int)
      modifies this`status, this`entryTime
      ensures status == Present && entryTime == Some(now)
    {
      status := Present;
      entryTime := Some(now);
    }

    /** Appends one check and counts it as passed or failed. */
    method AddRandomCheck(check: RandomCheck)
      requires CountersAgree()
      modifies this`randomChecks, this`randomChecksPassed, this`randomChecksFailed
      ensures randomChecks == old(randomChecks) + [check]
      ensures check.passed ==> randomChecksPassed == old(randomChecksPassed) + 1 &&
                               randomChecksFailed == old(randomChecksFailed)
      ensures !check.passed ==> randomChecksFailed == old(randomChecksFailed) + 1 &&
                                randomChecksPassed == old(randomChecksPassed)
      ensures CountersAgree()
      ensures randomChecksPassed + randomChecksFailed == |randomChecks|
    {
      PassedCountAppend(randomChecks, check);
      randomChecks := randomChecks + [check];
      if check.passed {
        randomChecksPassed := randomChecksPassed + 1;
      } else {
        randomChecksFailed := randomChecksFailed + 1;
      }
    }

    function CalculateDuration(): (d: Option<real>)
      reads this
      ensures d == Duration(entryTime, exitTime)
    {
      Duration(entryTime, exitTime)
    }
  }

  /** All attendance records, keyed by (user, session). */
  class AttendanceTable {
    var rows: map<(string, string), AttendanceRecord>

    /** Every record sits under its own (user, session) pair. */
    ghost predicate Valid()
      reads this
    {
      forall k :: k in rows ==> rows[k].userId == k.0 && rows[k].sessionId == k.1
    }

    constructor ()
      ensures rows == map[] && Valid()
    {
      rows := map[];
    }

    method Find(userId: string, sessionId: string) returns (r: Option<AttendanceRecord>)
      requires Valid()
      ensures r.Some? <==> (userId, sessionId) in rows
      ensures r.Some? ==> r.value == rows[(userId, sessionId)] &&
                          r.value.userId == userId && r.value.sessionId == sessionId
    {
      if (userId, sessionId) in rows {
        return Some(rows[(userId, sessionId)]);
      }
      return None;
    }

    /** Adds a record for a pair that has none. */
    method Insert(record: AttendanceRecord)
      requires Valid() && (record.userId, record.sessionId) !in rows
      modifies this
      ensures Valid()
      ensures rows == old(rows)[(record.userId, record.sessionId) := record]
    {
      rows := rows[(record.userId, record.sessionId) := record];
    }

    /** The pairs of `sessionId` whose record has `status`. */
    function WithStatus(sessionId: string, status: AttendanceStatus): (ks: set<(string, string)>)
      reads this, rows.Values
    {
      set k | k in rows && k.1 == sessionId && rows[k].status == status
    }

    function SessionKeys(sessionId: string): (ks: set<(string, string)>)
      reads this
    {
      set k | k in rows && k.1 == sessionId
    }

    /** How many records of `sessionId` have `status`. */
    function Count(sessionId: string, status: AttendanceStatus): nat
      reads this, rows.Values
    {
      |WithStatus(sessionId, status)|
    }
  }

  /** One record per (user, session): two pairs never share a record. */
  lemma OneRecordPerPair(t: AttendanceTable, k1: (string, string), k2: (string, string))
    requires t.Valid() && k1 in t.rows && k2 in t.rows && t.rows[k1] == t.rows[k2]
    ensures k1 == k2
  {
  }

  /** Records of distinct statuses are counted apart, so the counts of two statuses never
      exceed the records of the session. */
  lemma CountsBounded(t: AttendanceTable, sessionId: string, s1: AttendanceStatus, s2: AttendanceStatus)
    requires s1 != s2
    ensures t.Count(sessionId, s1) + t.Count(sessionId, s2) <= |t.SessionKeys(sessionId)|
  {
    var a, b := t.WithStatus(sessionId, s1), t.WithStatus(sessionId, s2);
    assert a * b == {};
    assert a + b <= t.SessionKeys(sessionId);
    SubsetCard(a + b, t.SessionKeys(sessionId));
  }

  lemma SubsetCard<T>(a: set<T>, b: set<T>)
    requires a <= b
    ensures |a| <= |b|
  {
    assert b == a + (b - a);
  }
}
