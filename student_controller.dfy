/** The student side of attendance: a claim checked against the session, the presence token
    and the factor evidence, scored and written to the single record of the (user, session)
    pair; the random presence checks scheduled after a pass; and the answer to one such check.

    The face and liveness evaluators are outside the model: a claim carries their answers
    (none when no image or no frames were sent). The clock, the request's IP address, the id
    a new record gets and the configured number of random checks are parameters. */
module StudentController {
  import opened Wrappers
  import opened Text
  import opened Constants
  import opened Cache
  import opened Geofencing
  import opened QRCode
  import opened WiFi
  import opened Beacon
  import opened AttendanceModel
  import opened SessionModel

  /** What a student submits. A scan list that is present counts as supplied even when empty. */
  datatype Claim = Claim(
    qrData: Scan,
    location: Option<Location>,
    wifiNetworks: Option<seq<AccessPoint>>,
    bluetoothBeacons: Option<seq<DetectedBeacon>>,
    deviceInfo: Option<string>,
    face: Option<Evaluation>,
    liveness: Option<Evaluation>)

  datatype MarkOutcome =
    | SessionNotFound
    | WindowClosed
    | AlreadyMarked
    | QRFailed(reason: QRFailure)
    | Marked(passed: bool, attendanceId: string, status: AttendanceStatus, verificationScore: nat,
             verificationResults: VerificationMethods, checkTimes: seq<int>)

  datatype CheckOutcome = RecordNotFound | FailedToProcess | Responded(passed: bool)

  /** The pass mark the claim decision uses. */
  const Threshold := 75

  /** The risk points of the edge-proximity flag. */
  const EdgeRisk := 20

  /** Length of a class for scheduling random checks: 60 minutes in milliseconds. */
  const ClassMillis := 60 * 60 * 1000

  /** The first reason a claim is turned away before its token is looked at, checked in the
      order: no such session, window closed, already present. */
  function Screen(sessionFound: bool, canMark: bool, existing: Option<AttendanceStatus>): (g: Option<MarkOutcome>)
    ensures !sessionFound ==> g == Some(SessionNotFound)
    ensures sessionFound && !canMark ==> g == Some(WindowClosed)
    ensures sessionFound && canMark && existing == Some(Present) ==> g == Some(AlreadyMarked)
    ensures g.None? <==> sessionFound && canMark && existing != Some(Present)
  {
    if !sessionFound then Some(SessionNotFound)
    else if !canMark then Some(WindowClosed)
    else if existing == Some(Present) then Some(AlreadyMarked)
    else None
  }

  /** The first reason a claim is turned away: one of the screening reasons, else a refused
      token. None when the claim goes on to be scored. */
  function Gate(sessionFound: bool, canMark: bool, existing: Option<AttendanceStatus>, verdict: QRVerdict)
    : (g: Option<MarkOutcome>)
    ensures g.None? <==> sessionFound && canMark && existing != Some(Present) && verdict.Accepted?
    ensures g.Some? && g.value.QRFailed? ==> verdict == Refused(g.value.reason)
  {
    if Screen(sessionFound, canMark, existing).Some? then Screen(sessionFound, canMark, existing)
    else if verdict.Refused? then Some(QRFailed(verdict.reason))
    else None
  }

  /** The geofence result of a claim, when it carries a location. */
  function LocationCheck(rooms: map<string, Room>, distance: (Point, Point) -> nat, location: Option<Location>,
                         classroom: string): (r: Option<LocationResult>)
    ensures r.Some? <==> location.Some?
  {
    if location.None? then None else Some(VerifyLocation(rooms, distance, location.value, classroom))
  }

  function FaceFactor(face: Option<Evaluation>): FactorResult {
    if face.None? then Unverified
    else FactorResult(face.value.verified, if face.value.verified then FaceScore else 0, face.value.confidence, None)
  }

  function LivenessFactor(liveness: Option<Evaluation>): FactorResult {
    if liveness.None? then Unverified
    else FactorResult(liveness.value.verified, if liveness.value.verified then LivenessScore else 0,
                      liveness.value.confidence, None)
  }

  function LocationFactor(r: Option<LocationResult>): FactorResult {
    if r.None? then Unverified
    else FactorResult(r.value.Valid(), if r.value.Valid() then LocationScore else 0, None, r.value.ReportedDistance())
  }

  /** A supplied scan earns the factor whenever the session requires it; its content is not
      examined. */
  function ScanFactor(supplied: bool, required: bool, points: nat): FactorResult {
    if supplied && required then FactorResult(true, points, None, None) else Unverified
  }

  /** The six factor results of a claim whose token was accepted. */
  function Factors(claim: Claim, settings: Settings, location: Option<LocationResult>): VerificationMethods {
    VerificationMethods(
      FaceFactor(claim.face),
      LivenessFactor(claim.liveness),
      FactorResult(true, QrScore, None, None),
      LocationFactor(location),
      ScanFactor(claim.wifiNetworks.Some?, settings.requireWiFi, WifiScore),
      ScanFactor(claim.bluetoothBeacons.Some?, settings.requireBeacon, BeaconScore))
  }

  /** The points of all six factors. */
  function TotalScore(vm: VerificationMethods): nat {
    vm.face.score + vm.liveness.score + vm.qr.score + vm.location.score + vm.wifi.score + vm.beacon.score
  }

  function ReviewReason(score: nat): string {
    "Verification score below threshold (" + NatToString(score) + "/" + NatToString(Threshold) + ")"
  }

  /** The edge-proximity flag: raised when the location factor reports a distance over 15 m. */
  function EdgeFlags(distance: Option<nat>): seq<AnomalyFlag> {
    if distance.Some? && distance.value > 15 then [EdgeMarking] else []
  }

  /** What a scored claim writes to the record. */
  function ClaimData(claim: Claim, settings: Settings, location: Option<LocationResult>, token: string,
                     ipAddress: string, now: int): AttendanceData
  {
    var vm := Factors(claim, settings, location);
    var score := TotalScore(vm);
    var passed := score >= Threshold;
    var flags := EdgeFlags(vm.location.distance);
    AttendanceData(
      if passed then Present else PendingReview,
      Evidence(vm, claim.location, vm.location.distance, claim.deviceInfo, ipAddress, token, now,
               vm.face.confidence, vm.liveness.confidence),
      score,
      !passed,
      if passed then None else Some(ReviewReason(score)),
      flags,
      if flags == [] then 0 else EdgeRisk,
      now)
  }

  /** The score is the token's 25 points plus the points of each other factor that verified;
      it lies between 25 and 100. */
  lemma ScoreOfClaim(claim: Claim, settings: Settings, location: Option<LocationResult>)
    ensures TotalScore(Factors(claim, settings, location)) ==
              25
              + (if claim.face.Some? && claim.face.value.verified then 30 else 0)
              + (if claim.liveness.Some? && claim.liveness.value.verified then 15 else 0)
              + (if location.Some? && location.value.Valid() then 20 else 0)
              + (if claim.wifiNetworks.Some? && settings.requireWiFi then 5 else 0)
              + (if claim.bluetoothBeacons.Some? && settings.requireBeacon then 5 else 0)
    ensures 25 <= TotalScore(Factors(claim, settings, location)) <= 100
  {
  }

  /** The record is present exactly when the score reaches 75; otherwise it awaits review with
      the score in its reason. */
  lemma DecisionAtThreshold(claim: Claim, settings: Settings, location: Option<LocationResult>, token: string,
                            ipAddress: string, now: int)
    ensures var d := ClaimData(claim, settings, location, token, ipAddress, now);
            (d.status == Present <==> d.verificationScore >= 75) &&
            (d.status == Present || d.status == PendingReview) &&
            d.verificationScore == TotalScore(Factors(claim, settings, location)) &&
            (d.requiresManualReview <==> d.status != Present) &&
            (d.status != Present ==> d.manualReviewReason == Some(ReviewReason(d.verificationScore))) &&
            (d.status == Present ==> d.manualReviewReason.None?)
  {
  }

  /** The reason names the score over the threshold in two digits each: every score a claim
      can reach below the threshold lies between 25 and 74, so 55 gives "(55/75)". */
  lemma ReviewReasonText(score: nat)
    requires 10 <= score < 100
    ensures ReviewReason(score) ==
              "Verification score below threshold (" + [DigitChar(score / 10), DigitChar(score % 10)] + "/75)"
    ensures ReviewReason(55) == "Verification score below threshold (55/75)"
  {
    NatToStringTwoDigits(score);
    NatToStringTwoDigits(55);
    NatToStringTwoDigits(75);
  }

  lemma NatToStringTwoDigits(n: nat)
    requires 10 <= n < 100
    ensures NatToString(n) == [DigitChar(n / 10), DigitChar(n % 10)]
  {
    assert NatToString(n / 10) == [DigitChar(n / 10)];
  }

  /** Without a verified face no claim passes: the other five factors together reach only 70. */
  lemma PassNeedsFace(claim: Claim, settings: Settings, location: Option<LocationResult>)
    requires TotalScore(Factors(claim, settings, location)) >= Threshold
    ensures claim.face.Some? && claim.face.value.verified
  {
    ScoreOfClaim(claim, settings, location);
  }

  /** A verified face together with a location inside the room always passes. */
  lemma FaceAndLocationPass(claim: Claim, settings: Settings, location: Option<LocationResult>)
    requires claim.face.Some? && claim.face.value.verified
    requires location.Some? && location.value.Valid()
    ensures TotalScore(Factors(claim, settings, location)) >= Threshold
  {
    ScoreOfClaim(claim, settings, location);
  }

  /** The edge flag, with 20 risk points, is raised exactly when the reported distance exceeds
      15 m, whether or not the claim passed; otherwise there are no flags and no risk. */
  lemma EdgeFlagIffFar(claim: Claim, settings: Settings, location: Option<LocationResult>, token: string,
                       ipAddress: string, now: int)
    ensures var d := ClaimData(claim, settings, location, token, ipAddress, now);
            var far := location.Some? && location.value.ReportedDistance().Some? &&
                       location.value.ReportedDistance().value > 15;
            (far ==> d.anomalyFlags == [EdgeMarking] && d.riskScore == 20) &&
            (!far ==> d.anomalyFlags == [] && d.riskScore == 0)
  {
  }

  /** The Wi-Fi and beacon points go to any supplied scan, an empty one included, when the
      session requires that factor. */
  lemma ScansEarnPointsUnexamined(claim: Claim, settings: Settings, location: Option<LocationResult>)
    requires settings.requireWiFi && settings.requireBeacon
    ensures var vm := Factors(claim.(wifiNetworks := Some([]), bluetoothBeacons := Some([])), settings, location);
            vm.wifi.verified && vm.wifi.score == 5 && vm.beacon.verified && vm.beacon.score == 5
  {
  }

  /** Number of random checks: the configured number, or 3 when unset, unparsable or zero. */
  function CheckCount(setting: Option<int>): (n: int)
    ensures setting.None? || setting.value == 0 ==> n == RandomCheckCount
    ensures setting.Some? && setting.value != 0 ==> n == setting.value
  {
    if setting.Some? && setting.value != 0 then setting.value else RandomCheckCount
  }

  /** The gap between checks: the class length split into `n + 1` parts, rounded down. */
  function Interval(n: int): int {
    if n + 1 > 0 then ClassMillis / (n + 1) else 0
  }

  /** The delays, in ms after the claim, at which the `n` random checks fire. */
  function CheckTimes(n: int): (ts: seq<int>) {
    seq(if n > 0 then n else 0, i => (i + 1) * Interval(n))
  }

  /** The checks fire in strictly increasing order, all after the claim and within the class,
      as long as each gap is at least a millisecond. */
  lemma {:induction false} CheckTimesWithinClass(n: int)
    requires 0 < n < ClassMillis
    ensures |CheckTimes(n)| == n
    ensures forall i, j :: 0 <= i < j < n ==> CheckTimes(n)[i] < CheckTimes(n)[j]
    ensures forall i :: 0 <= i < n ==> 0 < CheckTimes(n)[i] < ClassMillis
  {
    var q := Interval(n);
    assert q >= 1 by {
      assert (n + 1) * 1 <= ClassMillis;
    }
    forall i, j | 0 <= i < j < n
      ensures CheckTimes(n)[i] < CheckTimes(n)[j]
    {
      MulStrict(i + 1, j + 1, q);
    }
    forall i | 0 <= i < n
      ensures 0 < CheckTimes(n)[i] < ClassMillis
    {
      MulStrict(i + 1, n + 1, q);
      assert (n + 1) * q <= ClassMillis;
    }
  }

  lemma MulStrict(a: int, b: int, q: int)
    requires 0 < a < b && q >= 1
    ensures 0 < a * q < b * q
  {
  }

  /** The default configuration fires three checks at 15, 30 and 45 minutes. */
  lemma DefaultCheckTimes()
    ensures CheckTimes(CheckCount(None)) == [900000, 1800000, 2700000]
  {
  }

  /** The random checks a pass schedules: none when the session is gone, otherwise one per
      configured check at `i` times the interval, `i` from 1. */
  method ScheduleRandomChecks(sessions: map<string, Session>, sessionId: string, setting: Option<int>)
    returns (times: seq<int>)
    ensures times == if sessionId in sessions then CheckTimes(CheckCount(setting)) else []
  {
    if sessionId !in sessions {
      return [];
    }
    var checkCount := CheckCount(setting);
    var interval := Interval(checkCount);
    times := [];
    var i := 1;
    while i <= checkCount
      invariant 1 <= i <= (if checkCount > 0 then checkCount else 0) + 1
      invariant times == CheckTimes(checkCount)[..i - 1]
    {
      times := times + [i * interval];
      i := i + 1;
    }
    assert times == CheckTimes(checkCount);
  }

  /** Scores a claim whose token was accepted: 25 for the token, then face, liveness, the
      geofence (when a location was sent), Wi-Fi and beacon, each adding its points when it
      verified. */
  method ScoreClaim(claim: Claim, settings: Settings, rooms: map<string, Room>, distance: (Point, Point) -> nat,
                    classroom: string) returns (results: VerificationMethods, totalScore: nat)
    ensures results == Factors(claim, settings, LocationCheck(rooms, distance, claim.location, classroom))
    ensures totalScore == TotalScore(results)
  {
    var face, liveness, qrFactor, locationFactor, wifi, beacon :=
      Unverified, Unverified, Unverified, Unverified, Unverified, Unverified;
    totalScore := 0;

    qrFactor := FactorResult(true, QrScore, None, None);
    totalScore := totalScore + QrScore;

    if claim.face.Some? {
      if claim.face.value.verified {
        face := FactorResult(true, FaceScore, claim.face.value.confidence, None);
        totalScore := totalScore + FaceScore;
      } else {
        face := FactorResult(false, 0, claim.face.value.confidence, None);
      }
    }
    assert face == FaceFactor(claim.face) && totalScore == QrScore + face.score;
    if claim.liveness.Some? {
      if claim.liveness.value.verified {
        liveness := FactorResult(true, LivenessScore, claim.liveness.value.confidence, None);
        totalScore := totalScore + LivenessScore;
      } else {
        liveness := FactorResult(false, 0, claim.liveness.value.confidence, None);
      }
    }
    assert liveness == LivenessFactor(claim.liveness) && totalScore == QrScore + face.score + liveness.score;
    if claim.location.Some? {
      var locationResult := VerifyLocation(rooms, distance, claim.location.value, classroom);
      if locationResult.Valid() {
        locationFactor := FactorResult(true, LocationScore, None, locationResult.ReportedDistance());
        totalScore := totalScore + LocationScore;
      } else {
        locationFactor := FactorResult(false, 0, None, locationResult.ReportedDistance());
      }
    }
    assert locationFactor == LocationFactor(LocationCheck(rooms, distance, claim.location, classroom));
    assert totalScore == QrScore + face.score + liveness.score + locationFactor.score;
    if claim.wifiNetworks.Some? && settings.requireWiFi {
      wifi := FactorResult(true, WifiScore, None, None);
      totalScore := totalScore + WifiScore;
    }
    if claim.bluetoothBeacons.Some? && settings.requireBeacon {
      beacon := FactorResult(true, BeaconScore, None, None);
      totalScore := totalScore + BeaconScore;
    }
    results := VerificationMethods(face, liveness, qrFactor, locationFactor, wifi, beacon);
  }

  /** Scores a claim, decides it against the threshold, raises the edge flag and assembles
      what the record receives. */
  method ClaimRecord(claim: Claim, settings: Settings, rooms: map<string, Room>, distance: (Point, Point) -> nat,
                     classroom: string, token: string, ipAddress: string, now: int)
    returns (results: VerificationMethods, totalScore: nat, data: AttendanceData)
    ensures results == Factors(claim, settings, LocationCheck(rooms, distance, claim.location, classroom))
    ensures totalScore == TotalScore(results)
    ensures data == ClaimData(claim, settings, LocationCheck(rooms, distance, claim.location, classroom),
                              token, ipAddress, now)
  {
    results, totalScore := ScoreClaim(claim, settings, rooms, distance, classroom);
    var passed := totalScore >= Threshold;

    var anomalyFlags: seq<AnomalyFlag> := [];
    var riskScore: nat := 0;
    if results.location.distance.Some? && results.location.distance.value > 15 {
      anomalyFlags := anomalyFlags + [EdgeMarking];
      riskScore := riskScore + EdgeRisk;
    }

    data := AttendanceData(
      if passed then Present else PendingReview,
      Evidence(results, claim.location, results.location.distance, claim.deviceInfo, ipAddress, token, now,
               results.face.confidence, results.liveness.confidence),
      totalScore,
      !passed,
      if passed then None else Some(ReviewReason(totalScore)),
      anomalyFlags,
      riskScore,
      now);
  }

  /** Writes a claim's data to the pair's record: overwrites the record found earlier, or
      creates one under `newId` and adds it to the table. */
  method WriteRecord(table: AttendanceTable, existing: Option<AttendanceRecord>, userId: string,
                     sessionId: string, data: AttendanceData, newId: string, now: int)
    returns (attendance: AttendanceRecord)
    requires table.Valid()
    requires (userId, sessionId) in table.rows ==> table.rows[(userId, sessionId)].CountersAgree()
    requires existing.Some? <==> (userId, sessionId) in table.rows
    requires existing.Some? ==> existing.value == table.rows[(userId, sessionId)]
    modifies table
    modifies if existing.Some? then {existing.value} else {}
    ensures table.Valid()
    ensures (userId, sessionId) in table.rows ==> table.rows[(userId, sessionId)].CountersAgree()
    ensures (userId, sessionId) in table.rows && table.rows[(userId, sessionId)] == attendance
    ensures attendance.Holds(data)
    ensures existing.Some? ==> attendance == existing.value && table.rows == old(table.rows)
    ensures existing.None? ==> fresh(attendance) && attendance.id == newId &&
                               table.rows == old(table.rows)[(userId, sessionId) := attendance]
  {
    if existing.Some? {
      attendance := existing.value;
      attendance.Update(data);
    } else {
      attendance := new AttendanceRecord.Create(newId, userId, sessionId, data, now);
      table.Insert(attendance);
    }
  }

  /** The answer to a stored claim: passed exactly when present, with the record's id, the
      score and factor results, and the random checks a pass schedules. */
  function MarkedOutcome(data: AttendanceData, attendanceId: string, checkSetting: Option<int>): (o: MarkOutcome)
    ensures o.Marked? && o.passed == (data.status == Present)
    ensures o.checkTimes == if o.passed then CheckTimes(CheckCount(checkSetting)) else []
  {
    Marked(data.status == Present, attendanceId, data.status, data.verificationScore,
           data.evidence.verificationMethods,
           if data.status == Present then CheckTimes(CheckCount(checkSetting)) else [])
  }

  /** The pair's record carries `data`: the record that was there before, else a new one under
      `newId` is the only addition; and the session's counters match the table. */
  ghost predicate Stored(table: AttendanceTable, session: Session, key: (string, string), data: AttendanceData,
                         newId: string, before: map<(string, string), AttendanceRecord>)
    reads table, table.rows.Values, session
  {
    && key in table.rows
    && table.rows[key].Holds(data)
    && (key in before ==> table.rows == before)
    && (key !in before ==> table.rows[key].id == newId && table.rows == before[key := table.rows[key]])
    && session.presentCount == table.Count(key.1, Present)
    && session.absentCount == table.Count(key.1, Absent)
  }

  /** Stores a scored claim: the pair's record receives `data`, the session's counters are
      recounted, and a pass schedules the random checks. */
  method RecordClaim(sessions: map<string, Session>, session: Session, table: AttendanceTable,
                     existing: Option<AttendanceRecord>, userId: string, sessionId: string, data: AttendanceData,
                     newId: string, checkSetting: Option<int>, now: int)
    returns (outcome: MarkOutcome)
    requires sessionId in sessions && sessions[sessionId] == session && session.id == sessionId
    requires table.Valid()
    requires (userId, sessionId) in table.rows ==> table.rows[(userId, sessionId)].CountersAgree()
    requires existing.Some? <==> (userId, sessionId) in table.rows
    requires existing.Some? ==> existing.value == table.rows[(userId, sessionId)]
    modifies table, session`presentCount, session`absentCount
    modifies if existing.Some? then {existing.value} else {}
    ensures table.Valid()
    ensures (userId, sessionId) in table.rows ==> table.rows[(userId, sessionId)].CountersAgree()
    ensures Stored(table, session, (userId, sessionId), data, newId, old(table.rows))
    ensures outcome == MarkedOutcome(data, table.rows[(userId, sessionId)].id, checkSetting)
    ensures existing.None? ==> fresh(table.rows[(userId, sessionId)])
  {
    var attendance := WriteRecord(table, existing, userId, sessionId, data, newId, now);
    session.UpdateAttendanceCount(table);
    var checkTimes: seq<int> := [];
    if data.status == Present {
      checkTimes := ScheduleRandomChecks(sessions, sessionId, checkSetting);
    }
    outcome := Marked(data.status == Present, attendance.id, data.status, data.verificationScore,
                      data.evidence.verificationMethods, checkTimes);
    assert outcome == MarkedOutcome(data, attendance.id, checkSetting);
  }

  /** The token store after the token step of a claim: an expired token is dropped, an
      accepted one that is still live is marked as redeemed by the student, and any other scan
      leaves the store as it was. */
  function TokenStore(scan: Scan, verdict: QRVerdict, faulty: bool, entries: map<string, Entry<TokenRecord>>,
                      userId: string, now: int): map<string, Entry<TokenRecord>>
  {
    if verdict == Refused(Expired) && !faulty && scan.Payload? && scan.token.Some? then
      entries - {QRKey(scan.token.value)}
    else if verdict.Accepted? && !faulty && Lookup(entries, QRKey(verdict.token), now).Some? then
      Redeemed(entries, verdict.token, userId, now)
    else entries
  }

  /** A scan refused for any reason but expiry leaves the store as it was; an expired one
      removes exactly its token; an accepted one adds the student to the token's redemptions. */
  lemma TokenStoreEffect(scan: Scan, faulty: bool, entries: map<string, Entry<TokenRecord>>, now: int,
                         location: Option<Location>, rooms: map<string, Room>, distance: (Point, Point) -> nat,
                         userId: string)
    ensures var v := Verdict(scan, faulty, entries, now, location, rooms, distance);
            var after := TokenStore(scan, v, faulty, entries, userId, now);
            && (v.Refused? && v != Refused(Expired) ==> after == entries)
            && (v == Refused(Expired) ==> after == entries - {QRKey(scan.token.value)} && !faulty)
            && (v.Accepted? ==> UsageOf(false, after, v.token, now).users ==
                                  UsageOf(false, entries, v.token, now).users + [Redemption(userId, now)])
  {
    var v := Verdict(scan, faulty, entries, now, location, rooms, distance);
    if v.Accepted? {
      RedeemedUsageGrows(entries, v.token, userId, now);
    }
  }

  /** The token step of a claim: the scan is verified and, when accepted, its token is marked
      as redeemed by the student. */
  method RedeemToken(qr: QRCodeService, geo: GeofencingService, claim: Claim, userId: string, now: int)
    returns (verdict: QRVerdict)
    modifies qr.cache`entries
    ensures verdict == Verdict(claim.qrData, qr.cache.faulty, old(qr.cache.entries), now, claim.location,
                               geo.classrooms, geo.distance)
    ensures qr.cache.entries == TokenStore(claim.qrData, verdict, qr.cache.faulty, old(qr.cache.entries), userId, now)
  {
    verdict := qr.VerifyQRCode(claim.qrData, claim.location, geo, now);
    if verdict.Accepted? {
      var _ := qr.MarkQRAsUsed(verdict.token, userId, now);
    }
  }

  /** The screening of a claim: the session is looked up, its window checked, and the pair's
      record, if any, fetched. */
  method Screening(sessions: map<string, Session>, table: AttendanceTable, userId: string, sessionId: string,
                   now: int) returns (rejection: Option<MarkOutcome>, existing: Option<AttendanceRecord>)
    requires table.Valid()
    ensures rejection == Screen(sessionId in sessions, sessionId in sessions && sessions[sessionId].CanMarkAttendance(now),
                                if (userId, sessionId) in table.rows then Some(table.rows[(userId, sessionId)].status)
                                else None)
    ensures rejection.None? ==> (existing.Some? <==> (userId, sessionId) in table.rows)
    ensures rejection.None? && existing.Some? ==> existing.value == table.rows[(userId, sessionId)]
  {
    if sessionId !in sessions {
      return Some(SessionNotFound), None;
    }
    var session := sessions[sessionId];
    if !session.CanMarkAttendance(now) {
      return Some(WindowClosed), None;
    }
    existing := table.Find(userId, sessionId);
    if existing.Some? && existing.value.status == Present {
      return Some(AlreadyMarked), existing;
    }
    rejection := None;
  }

  /** An accepted claim: it is scored and its record stored. */
  method Accept(sessions: map<string, Session>, session: Session, table: AttendanceTable,
                existing: Option<AttendanceRecord>, qr: QRCodeService, geo: GeofencingService, userId: string,
                sessionId: string, claim: Claim, token: string, ipAddress: string, newId: string,
                checkSetting: Option<int>, now: int)
    returns (outcome: MarkOutcome)
    requires sessionId in sessions && sessions[sessionId] == session && session.id == sessionId
    requires table.Valid()
    requires (userId, sessionId) in table.rows ==> table.rows[(userId, sessionId)].CountersAgree()
    requires existing.Some? <==> (userId, sessionId) in table.rows
    requires existing.Some? ==> existing.value == table.rows[(userId, sessionId)]
    modifies table, session`presentCount, session`absentCount
    modifies if existing.Some? then {existing.value} else {}
    ensures table.Valid()
    ensures (userId, sessionId) in table.rows ==> table.rows[(userId, sessionId)].CountersAgree()
    ensures var data := ClaimData(claim, old(session.settings),
                                  LocationCheck(geo.classrooms, geo.distance, claim.location, session.classroom),
                                  token, ipAddress, now);
            && Stored(table, session, (userId, sessionId), data, newId, old(table.rows))
            && outcome == MarkedOutcome(data, table.rows[(userId, sessionId)].id, checkSetting)
    ensures existing.None? ==> fresh(table.rows[(userId, sessionId)])
    ensures qr.cache.entries == old(qr.cache.entries) && qr.cache.faulty == old(qr.cache.faulty)
    ensures geo.classrooms == old(geo.classrooms)
  {
    var results, totalScore, data :=
      ClaimRecord(claim, session.settings, geo.classrooms, geo.distance, session.classroom, token, ipAddress, now);
    outcome := RecordClaim(sessions, session, table, existing, userId, sessionId, data, newId, checkSetting, now);
  }

  /** A screened claim from here on: the token is redeemed, and an accepted scan is scored and
      stored; a refused scan leaves the table as it was. */
  method Admit(sessions: map<string, Session>, session: Session, table: AttendanceTable,
               existing: Option<AttendanceRecord>, qr: QRCodeService, geo: GeofencingService, userId: string,
               sessionId: string, claim: Claim, ipAddress: string, newId: string, checkSetting: Option<int>,
               now: int) returns (verdict: QRVerdict, outcome: MarkOutcome)
    requires sessionId in sessions && sessions[sessionId] == session && session.id == sessionId
    requires table.Valid()
    requires (userId, sessionId) in table.rows ==> table.rows[(userId, sessionId)].CountersAgree()
    requires existing.Some? <==> (userId, sessionId) in table.rows
    requires existing.Some? ==> existing.value == table.rows[(userId, sessionId)]
    modifies qr.cache`entries, table, session`presentCount, session`absentCount
    modifies if existing.Some? then {existing.value} else {}
    ensures table.Valid()
    ensures (userId, sessionId) in table.rows ==> table.rows[(userId, sessionId)].CountersAgree()
    ensures verdict == Verdict(claim.qrData, old(qr.cache.faulty), old(qr.cache.entries), now, claim.location,
                               old(geo.classrooms), geo.distance)
    ensures verdict.Refused? ==> outcome == QRFailed(verdict.reason) && table.rows == old(table.rows)
    ensures verdict.Accepted? <==> outcome.Marked?
    ensures !outcome.Marked? && existing.Some? ==> unchanged(existing.value)
    ensures qr.cache.entries == TokenStore(claim.qrData, verdict, qr.cache.faulty, old(qr.cache.entries), userId, now)
    ensures outcome.Marked? ==>
              var key := (userId, sessionId);
              var token := FieldText(claim.qrData.token);
              var data := ClaimData(claim, old(session.settings),
                                    LocationCheck(geo.classrooms, geo.distance, claim.location, session.classroom),
                                    token, ipAddress, now);
              && Stored(table, session, key, data, newId, old(table.rows))
              && outcome == MarkedOutcome(data, table.rows[key].id, checkSetting)
              && (key !in old(table.rows) ==> fresh(table.rows[key]))
  {
    verdict := RedeemToken(qr, geo, claim, userId, now);
    assert verdict == Verdict(claim.qrData, old(qr.cache.faulty), old(qr.cache.entries), now, claim.location,
                              old(geo.classrooms), geo.distance);
    if verdict.Refused? {
      return verdict, QRFailed(verdict.reason);
    }
    assert table.rows == old(table.rows) && session.settings == old(session.settings);
    outcome := Accept(sessions, session, table, existing, qr, geo, userId, sessionId, claim, verdict.token,
                      ipAddress, newId, checkSetting, now);
  }

  /** A claim: turned away by the first failing gate with nothing recorded (an expired token is
      also dropped from the store), or scored and written to the one record of the pair, which
      is overwritten when it exists and created otherwise; the session's counters are then
      recounted, the token is marked as redeemed, and a pass schedules the random checks. */
  method MarkAttendance(sessions: map<string, Session>, table: AttendanceTable, qr: QRCodeService,
                        geo: GeofencingService, userId: string, sessionId: string, claim: Claim,
                        ipAddress: string, newId: string, checkSetting: Option<int>, now: int)
    returns (outcome: MarkOutcome)
    requires SessionsKeyed(sessions) && table.Valid()
    requires (userId, sessionId) in table.rows ==> table.rows[(userId, sessionId)].CountersAgree()
    modifies qr.cache`entries, table
    modifies if (userId, sessionId) in table.rows then {table.rows[(userId, sessionId)]} else {}
    modifies if sessionId in sessions then {sessions[sessionId]} else {}
    ensures table.Valid()
    ensures (userId, sessionId) in table.rows ==> table.rows[(userId, sessionId)].CountersAgree()
    ensures var key := (userId, sessionId);
            var g := Gate(sessionId in sessions, sessionId in sessions && old(sessions[sessionId].CanMarkAttendance(now)),
                          if key in old(table.rows) then Some(old(table.rows[key].status)) else None,
                          Verdict(claim.qrData, qr.cache.faulty, old(qr.cache.entries), now, claim.location,
                                  geo.classrooms, geo.distance));
            (g.Some? ==> outcome == g.value) && (g.None? <==> outcome.Marked?)
    ensures !outcome.Marked? ==> table.rows == old(table.rows)
    ensures !outcome.Marked? && (userId, sessionId) in table.rows ==> unchanged(table.rows[(userId, sessionId)])
    ensures outcome.Marked? || outcome.QRFailed? ==>
              qr.cache.entries == TokenStore(claim.qrData, Verdict(claim.qrData, qr.cache.faulty, old(qr.cache.entries),
                                                                   now, claim.location, geo.classrooms, geo.distance),
                                             qr.cache.faulty, old(qr.cache.entries), userId, now)
    ensures !outcome.Marked? && !outcome.QRFailed? ==> qr.cache.entries == old(qr.cache.entries)
    ensures outcome.Marked? ==>
              var key := (userId, sessionId);
              var session := sessions[sessionId];
              var token := FieldText(claim.qrData.token);
              var data := ClaimData(claim, old(session.settings),
                                    LocationCheck(geo.classrooms, geo.distance, claim.location, session.classroom),
                                    token, ipAddress, now);
              && Stored(table, session, key, data, newId, old(table.rows))
              && outcome == MarkedOutcome(data, table.rows[key].id, checkSetting)
              && (key !in old(table.rows) ==> fresh(table.rows[key]))
  {
    var rejection, existing := Screening(sessions, table, userId, sessionId, now);
    if rejection.Some? {
      return rejection.value;
    }
    var verdict;
    verdict, outcome := Admit(sessions, sessions[sessionId], table, existing, qr, geo, userId, sessionId, claim, ipAddress,
                     newId, checkSetting, now);
    assert verdict.Accepted? ==> verdict.token == FieldText(claim.qrData.token);
  }

  /** The geofence result a random-check answer is judged by. None when the check cannot be
      judged: the room is known but no location was sent, so the location check fails on the
      missing fix. An unknown room is reported without looking at the location. */
  function CheckLocation(rooms: map<string, Room>, distance: (Point, Point) -> nat, location: Option<Location>,
                         classroom: string): (r: Option<LocationResult>)
    ensures r.None? <==> location.None? && classroom in rooms
    ensures location.Some? ==> r == Some(VerifyLocation(rooms, distance, location.value, classroom))
    ensures classroom !in rooms ==> r == Some(Outside(UnknownClassroom(classroom)))
  {
    if classroom !in rooms then Some(Outside(UnknownClassroom(classroom)))
    else if location.None? then None
    else Some(VerifyLocation(rooms, distance, location.value, classroom))
  }

  /** The face evaluation of a random-check answer: the evaluator's, or verified when no image
      was sent. */
  function CheckFace(face: Option<Evaluation>): (e: Evaluation)
    ensures face.None? ==> e.verified
    ensures face.Some? ==> e == face.value
  {
    face.GetOr(Evaluation(true, None))
  }

  /** The check recorded for an answer. */
  function CheckEntry(checkId: string, location: LocationResult, face: Option<Evaluation>, now: int): RandomCheck {
    RandomCheck(checkId, location.Valid() && CheckFace(face).verified, location, CheckFace(face), now)
  }

  /** An answer without a location never passes: either it cannot be judged or the room is
      unknown. */
  lemma NoLocationNeverPasses(rooms: map<string, Room>, distance: (Point, Point) -> nat, classroom: string,
                              checkId: string, face: Option<Evaluation>, now: int)
    ensures var r := CheckLocation(rooms, distance, None, classroom);
            r.Some? ==> !CheckEntry(checkId, r.value, face, now).passed
  {
  }

  /** An answer passes exactly when its location is inside the room and the face, if sent,
      verified. */
  lemma CheckPassedIff(rooms: map<string, Room>, distance: (Point, Point) -> nat, location: Location,
                       classroom: string, checkId: string, face: Option<Evaluation>, now: int)
    ensures var r := CheckLocation(rooms, distance, Some(location), classroom).value;
            CheckEntry(checkId, r, face, now).passed <==>
              VerifyLocation(rooms, distance, location, classroom).Valid() && (face.None? || face.value.verified)
  {
  }

  /** A random-check answer: not found without a record of the pair, not processed when the
      session is gone or the answer cannot be judged, otherwise exactly one check is appended
      to the record. */
  method RespondToRandomCheck(sessions: map<string, Session>, table: AttendanceTable, geo: GeofencingService,
                              userId: string, sessionId: string, checkId: string, location: Option<Location>,
                              face: Option<Evaluation>, now: int)
    returns (outcome: CheckOutcome)
    requires table.Valid()
    requires (userId, sessionId) in table.rows ==> table.rows[(userId, sessionId)].CountersAgree()
    modifies if (userId, sessionId) in table.rows then {table.rows[(userId, sessionId)]} else {}
    ensures table.Valid()
    ensures (userId, sessionId) in table.rows ==> table.rows[(userId, sessionId)].CountersAgree()
    ensures outcome == RecordNotFound <==> (userId, sessionId) !in table.rows
    ensures outcome == FailedToProcess <==>
              (userId, sessionId) in table.rows &&
              (sessionId !in sessions ||
               CheckLocation(geo.classrooms, geo.distance, location, sessions[sessionId].classroom).None?)
    ensures !outcome.Responded? && (userId, sessionId) in table.rows ==> unchanged(table.rows[(userId, sessionId)])
    ensures outcome.Responded? ==>
              var record := table.rows[(userId, sessionId)];
              var r := CheckLocation(geo.classrooms, geo.distance, location, sessions[sessionId].classroom).value;
              var entry := CheckEntry(checkId, r, face, now);
              && outcome.passed == entry.passed
              && record.randomChecks == old(record.randomChecks) + [entry]
              && record.randomChecksPassed + record.randomChecksFailed == |record.randomChecks|
              && record.randomChecksPassed == old(record.randomChecksPassed) + (if entry.passed then 1 else 0)
              && record.randomChecksFailed == old(record.randomChecksFailed) + (if entry.passed then 0 else 1)
  {
    var attendance := table.Find(userId, sessionId);
    if attendance.None? {
      return RecordNotFound;
    }
    if sessionId !in sessions {
      return FailedToProcess;
    }
    var session := sessions[sessionId];
    var locationResult := CheckLocation(geo.classrooms, geo.distance, location, session.classroom);
    if locationResult.None? {
      return FailedToProcess;
    }
    var faceResult := Evaluation(true, None);
    if face.Some? {
      faceResult := face.value;
    }
    var passed := locationResult.value.Valid() && faceResult.verified;
    var record := attendance.value;
    record.AddRandomCheck(RandomCheck(checkId, passed, locationResult.value, faceResult, now));
    outcome := Responded(passed);
  }
}
