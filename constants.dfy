/** The application-wide constants: verification weights, thresholds, token lifetimes,
    random-check settings, cache lifetimes and the status and anomaly-flag vocabularies. */
module Constants {

  // Session status values.
  datatype SessionStatus = Scheduled | Active | Completed | Cancelled

  // Attendance status values; a record always holds exactly one of these five.
  datatype AttendanceStatus = Present | Absent | Late | Partial | PendingReview

  function AttendanceStatusName(s: AttendanceStatus): string {
    match s
    case Present => "present"
    case Absent => "absent"
    case Late => "late"
    case Partial => "partial"
    case PendingReview => "pending_review"
  }

  function SessionStatusName(s: SessionStatus): string {
    match s
    case Scheduled => "scheduled"
    case Active => "active"
    case Completed => "completed"
    case Cancelled => "cancelled"
  }

  // Points each verification factor contributes to the 0-100 verification score.
  const QrScore := 25
  const FaceScore := 30
  const LivenessScore := 15
  const LocationScore := 20
  const WifiScore := 5
  const BeaconScore := 5

  // Thresholds.
  const VerificationPass := 75
  const FaceRecognitionThreshold: real := 0.85
  const LivenessThreshold: real := 0.75
  const GpsAccuracy := 20
  const ClassroomRadius := 20
  const RiskScoreHigh := 60
  const AnomalyDetection := 40

  // Presence tokens.
  const QrValiditySeconds := 300
  const QrRotationInterval := 300000

  // Random presence checks.
  const RandomCheckCount := 3
  const RandomCheckTimeout := 120000
  const RandomCheckRequiredPasses := 2

  // Cache lifetimes in seconds.
  const CacheTtlFaceEmbedding := 86400
  const CacheTtlQrCode := 300
  const CacheTtlSession := 3600
  const CacheTtlUserProfile := 1800

  // Anomaly flags raised by the risk engine and by the verification pipeline.
  datatype AnomalyFlag =
    | EdgeMarking | ShortDuration | FailedRandomChecks | DeviceHopping
    | ConsistentTiming | BatchMarking | RemoteMarking

  function FlagName(f: AnomalyFlag): string {
    match f
    case EdgeMarking => "EDGE_MARKING"
    case ShortDuration => "SHORT_DURATION"
    case FailedRandomChecks => "FAILED_RANDOM_CHECKS"
    case DeviceHopping => "DEVICE_HOPPING"
    case ConsistentTiming => "CONSISTENT_TIMING"
    case BatchMarking => "BATCH_MARKING"
    case RemoteMarking => "REMOTE_MARKING"
  }

  /** The six factor weights make up the whole 100-point scale. */
  lemma WeightsSumTo100()
    ensures QrScore + FaceScore + LivenessScore + LocationScore + WifiScore + BeaconScore == 100
  {
  }

  /** The pass mark is reachable and cannot be met by the mandatory token alone. */
  lemma PassThresholdBetweenTokenAndMaximum()
    ensures QrScore < VerificationPass <= 100
  {
  }

  /** The GPS accuracy ceiling equals the default classroom radius. */
  lemma AccuracyCeilingIsClassroomRadius()
    ensures GpsAccuracy == ClassroomRadius == 20
  {
  }

  /** Token validity, the token cache lifetime and the rotation interval describe the same 300 s. */
  lemma TokenLifetimesAgree()
    ensures QrValiditySeconds == CacheTtlQrCode
    ensures QrRotationInterval == QrValiditySeconds * 1000
  {
  }

  /** Required random-check passes are attainable and the anomaly threshold is below the high-risk one. */
  lemma RandomCheckAndRiskThresholdsOrdered()
    ensures RandomCheckRequiredPasses <= RandomCheckCount
    ensures AnomalyDetection < RiskScoreHigh
  {
  }

  /** Distinct anomaly flags have distinct names. */
  lemma {:induction false} FlagNamesDistinct(f: AnomalyFlag, g: AnomalyFlag)
    ensures FlagName(f) == FlagName(g) ==> f == g
  {
    if FlagName(f) == FlagName(g) {
      // The names differ in length or in one early character.
      assert |FlagName(f)| == |FlagName(g)|;
      match f
      case EdgeMarking =>
      case ShortDuration =>
      case FailedRandomChecks =>
      case DeviceHopping =>
      case ConsistentTiming => assert FlagName(f)[1] == FlagName(g)[1];
      case BatchMarking => assert FlagName(f)[0] == FlagName(g)[0];
      case RemoteMarking => assert FlagName(f)[0] == FlagName(g)[0];
    }
  }

  /** Distinct attendance statuses have distinct names. */
  lemma {:induction false} AttendanceStatusNamesDistinct(s: AttendanceStatus, t: AttendanceStatus)
    ensures AttendanceStatusName(s) == AttendanceStatusName(t) ==> s == t
  {
    if AttendanceStatusName(s) == AttendanceStatusName(t) {
      assert AttendanceStatusName(s)[0] == AttendanceStatusName(t)[0];
      if s == Present || s == Partial || s == PendingReview {
        assert AttendanceStatusName(s)[2] == AttendanceStatusName(t)[2];
      }
    }
  }
}
