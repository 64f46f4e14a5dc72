# Attendance verification and risk engine, modelled in Dafny

The system takes attendance in classrooms. A faculty member starts a session. This opens a
fifteen-minute attendance window and issues a rotating QR token, which is cached for 300
seconds. A student claims attendance by scanning the token. The claim also carries a
location and the outcome of face and liveness checks, and it may carry Wi-Fi and Bluetooth
scans. The student controller screens the claim, in this order:

- the session must exist;
- its window must be open;
- the student must not already be present;
- the token must be accepted.

It then scores the six verification factors on a 100-point scale. At 75 points or more the
record is marked present; below that it is marked pending review. The record is written,
exactly one per student and session, and random spot checks are scheduled for a student
who passed. Around this core sit:

- the geofencing, Wi-Fi and beacon services;
- the anomaly heuristics that score a student's history;
- the cosine-similarity biometric check;
- the in-memory cache with per-key expiry;
- the faculty operations: start, rotate, end, report and review;
- the small helpers and formatters of the back and front end.

Each core source file is one Dafny module:

- pure logic is written as functions and lemmas;
- objects whose fields the source updates become classes with `modifies` and `reads` frames;
- loops become methods proved against specification functions.

The clock is a parameter `now` in milliseconds. The store can be set to fail on every call
(`faulty`), which models the source's `catch` paths.

## Model

| member | source | states |
|---|---|---|
| Constants.WeightsSumTo100 | backend/src/config/constants.js:37-44 | the six factor weights make up exactly the 100-point scale |
| Constants.PassThresholdBetweenTokenAndMaximum | backend/src/config/constants.js:37-48 | the pass mark is reachable and the mandatory token alone never reaches it |
| Constants.AccuracyCeilingIsClassroomRadius | backend/src/config/constants.js:51-52 | the GPS accuracy ceiling equals the default classroom radius, 20 m |
| Constants.TokenLifetimesAgree | backend/src/config/constants.js:58-61 | token validity, the token's cache lifetime and the rotation interval are the same 300 s |
| Constants.RandomCheckAndRiskThresholdsOrdered | backend/src/config/constants.js:53-68 | the required random-check passes do not exceed the number of checks, and the anomaly threshold is below the high-risk score |
| Constants.FlagNamesDistinct | backend/src/config/constants.js:71-79 | the anomaly flag names are pairwise distinct, so a stored name identifies its flag |
| Constants.AttendanceStatusNamesDistinct | backend/src/config/constants.js:18-24 | the attendance status names are pairwise distinct |
| Cache.LookupAfterPut | backend/src/config/redis.js:65-78 | a written value is read back until its expiry and not after; other keys read as before |
| Cache.LookupAfterRemove | backend/src/config/redis.js:88-97 | a deleted key reads as absent; other keys are unaffected |
| Cache.RemoveIdempotent | backend/src/config/redis.js:88-97 | deleting twice is deleting once, and deleting an absent key changes nothing |
| Cache.SweepInvisible | backend/src/config/redis.js:73-76 | firing the expiry timers that are due never changes what a read at that time or later sees |
| Cache.PrefixedKeysInjective | backend/src/config/redis.js:130-186 | each key family (qr, session, face embedding, rate limit) gives one key per identifier |
| Cache.KeyFamiliesDisjoint | backend/src/config/redis.js:130-186 | keys of different families never collide, whatever the identifiers |
| Cache.RateVerdict | backend/src/config/redis.js:165-169 | the limit is exceeded exactly when the count passes it; remaining is the headroom, and 0 once exceeded |
| Cache.Incremented | backend/src/config/redis.js:158-163 | the increment counts from zero once the window has lapsed; the expiry is set only on the first hit; other counters are kept |
| Cache.MemoryCache.constructor | backend/src/config/redis.js:42-43 | the cache starts empty and working |
| Cache.MemoryCache.Get | backend/src/config/redis.js:52-63 | the value read is the live entry, or none for a missing or expired key or a store error |
| Cache.MemoryCache.Set | backend/src/config/redis.js:65-86 | a write replaces the entry with its new expiry; a store error reports false and changes nothing |
| Cache.MemoryCache.Del | backend/src/config/redis.js:88-104 | a delete removes the key; a store error reports false and changes nothing |
| Cache.MemoryCache.Expire | backend/src/config/redis.js:73-76 | the removal timers that are due fire and drop exactly the expired entries |
| Cache.MemoryCache.StoreFaceEmbedding | backend/src/config/redis.js:130-133 | the embedding is cached under its face-embedding key for the fixed lifetime |
| Cache.MemoryCache.GetFaceEmbedding | backend/src/config/redis.js:135-138 | it reads the live entry under the student's face-embedding key |
| Cache.MemoryCache.StoreQRCode | backend/src/config/redis.js:141-144 | the token record is cached under "qr:" + token for the given lifetime |
| Cache.MemoryCache.GetQRCode | backend/src/config/redis.js:146-149 | it reads the live entry under the token's key |
| Cache.MemoryCache.DeleteQRCode | backend/src/config/redis.js:151-154 | it removes the token's key |
| Cache.MemoryCache.CheckRateLimit | backend/src/config/redis.js:157-170 | one request is counted under the identifier's key and the verdict is read from the new count; a store error propagates and counts nothing |
| Cache.MemoryCache.StoreSession | backend/src/config/redis.js:173-176 | the session data is cached under "session:" + id |
| Cache.MemoryCache.GetSession | backend/src/config/redis.js:178-181 | it reads the live entry under the session's key |
| Cache.MemoryCache.DeleteSession | backend/src/config/redis.js:183-186 | it removes the session's key |
| QRCode.Verdict | backend/src/services/qrCodeService.js:56-136 | a scan is refused for the first failing reason, in the order: unreadable, null payload, missing token or session id, token not live in the store, payload past its own expiry, session mismatch, location outside the classroom (only when a location is given, with the geofence's reason); it is accepted exactly when every check passes, and then names the payload's session, classroom and token |
| QRCode.Issued | backend/src/services/qrCodeService.js:16-22 | an issued record has no redemptions and is valid for exactly the validity period from its issue time |
| QRCode.PayloadOf | backend/src/services/qrCodeService.js:28-29 | the QR image carries the record's token, session and expiry |
| QRCode.RemainingSeconds | backend/src/services/qrCodeService.js:166 | a redeemed token is re-cached for at least one second and never past its expiry, to within one second |
| QRCode.Redeemed | backend/src/services/qrCodeService.js:147-167 | redeeming appends the student to the token's usage and keeps its session and expiry; other keys are untouched |
| QRCode.UsageOf | backend/src/services/qrCodeService.js:176-191 | the reported count is the number of recorded users; a token that is not live, or a store error, reports no usage |
| QRCode.IssuedTokenAccepted | backend/src/services/qrCodeService.js:81-128 | a freshly issued token, scanned from its own image within its validity and inside the room, is accepted for its session |
| QRCode.IssuedTokenRefusedAfterValidity | backend/src/services/qrCodeService.js:83-97 | once the validity has passed, a token's own payload is refused |
| QRCode.InvalidatedTokenRefused | backend/src/services/qrCodeService.js:138-141 | an invalidated token is refused as not stored, whatever the payload says |
| QRCode.OtherSessionRefused | backend/src/services/qrCodeService.js:100-105 | a token issued for one session never admits a payload naming another |
| QRCode.RedeemedUsageGrows | backend/src/services/qrCodeService.js:160-163 | redeeming a live token adds exactly that redemption to its usage |
| QRCode.RedeemedKeepsVerdictSession | backend/src/services/qrCodeService.js:160-167 | redemption never makes a token acceptable for another session |
| QRCode.QRCodeService.constructor | backend/src/services/qrCodeService.js:6-8 | the validity is the configured value, or 300 s when it is unset or zero |
| QRCode.QRCodeService.GenerateQRCode | backend/src/services/qrCodeService.js:10-54 | the token is issued and cached for the validity period, and the reply carries its expiry |
| QRCode.QRCodeService.VerifyQRCode | backend/src/services/qrCodeService.js:56-136 | the reply is the verdict on the store as it was; a payload past its own expiry also deletes its token |
| QRCode.QRCodeService.InvalidateQRCode | backend/src/services/qrCodeService.js:138-145 | the token is removed, and success is reported even on a store error |
| QRCode.QRCodeService.MarkQRAsUsed | backend/src/services/qrCodeService.js:147-173 | it succeeds exactly for a live token and then leaves the store redeemed; otherwise nothing changes |
| QRCode.QRCodeService.CheckQRUsage | backend/src/services/qrCodeService.js:176-191 | it reports the token's usage as stored |
| QRCode.QRCodeService.GenerateRotatingQR | backend/src/services/qrCodeService.js:194-208 | it issues a token and schedules its invalidation one rotation interval later |
| Geofencing.VerifyLocation | backend/src/services/geofencing.js:45-103 | the location is valid exactly when the room is known, the accuracy is at most 20 m, the distance is within the radius and the floors agree; each failure is reported with its reason |
| Geofencing.AccuracyAtCeilingAccepted | backend/src/services/geofencing.js:57 | an accuracy at the 20 m ceiling is not rejected |
| Geofencing.ValidImpliesWithinRadius | backend/src/services/geofencing.js:73-102 | a valid location lies in a known room and within its radius |
| Geofencing.FloorMismatchRejected | backend/src/services/geofencing.js:86-94 | a known floor that differs from the room's is rejected; a missing floor on either side is not |
| Geofencing.ConfiguredRoom | backend/src/services/geofencing.js:191-198 | an added room keeps its centre, floor and building, and takes the default radius when none or zero is given |
| Geofencing.Merged | backend/src/services/geofencing.js:214-217 | each supplied field of an update replaces the room's field, the rest are kept, and an empty update changes nothing |
| Geofencing.TooFastAsIntegers | backend/src/services/geofencing.js:156-163 | an implied speed over 15 km/h is, in integers, 6 d > 25 s |
| Geofencing.EstimateFloor | backend/src/services/geofencing.js:181-188 | no floor for a missing or zero altitude; otherwise a floor of at least 0, one per whole 3 m above the ground level, and floor 0 below the ground level |
| Geofencing.DefaultRoomsDistinct | backend/src/services/geofencing.js:20-42 | the built-in rooms have distinct ids |
| Geofencing.IdsOf | backend/src/services/geofencing.js:9-43 | the listing order is the ids of the configured rooms, in order |
| Geofencing.TableOf | backend/src/services/geofencing.js:9-43 | the room table holds exactly the configured ids, each with its room |
| Geofencing.TableMatchesIds | backend/src/services/geofencing.js:109 | every id in the listing order has a room in the table |
| Geofencing.GeofencingService.constructor | backend/src/services/geofencing.js:4-7 | the service holds the configured or built-in rooms, and a default radius from the environment, or 20 |
| Geofencing.GeofencingService.GetNearestClassroom | backend/src/services/geofencing.js:105-122 | none exactly when there are no rooms; otherwise a room whose distance is at most that of every other room |
| Geofencing.GeofencingService.IsOnCampus | backend/src/services/geofencing.js:124-142 | on campus exactly when the distance from the campus centre is within its radius |
| Geofencing.GeofencingService.CheckLocationConsistency | backend/src/services/geofencing.js:153-178 | the first fix is consistent; a later one is inconsistent exactly when the implied speed is over 15 km/h |
| Geofencing.GeofencingService.AddClassroom | backend/src/services/geofencing.js:191-201 | the room is added or replaced with its configured shape, and a new id goes last in order |
| Geofencing.GeofencingService.UpdateClassroom | backend/src/services/geofencing.js:209-220 | an unknown room fails and changes nothing; a known one becomes the merge of itself and the update |
| Geofencing.GeofencingService.DeleteClassroom | backend/src/services/geofencing.js:223-230 | it reports whether the room existed; an unknown room changes nothing; a known one is removed from the table and cut out of the order where it stood, the other rooms keeping their order |
| Beacon.Identity | backend/src/services/beaconService.js:26 | a beacon is identified by its non-empty uuid, or else by its id |
| Beacon.FirstExpected | backend/src/services/beaconService.js:29-31 | the first detected beacon that is expected for the room, or none, and then no beacon is expected |
| Beacon.Identities | backend/src/services/beaconService.js:26 | the reported ids are the detected beacons' identities, in order |
| Beacon.PowBounds | backend/src/services/beaconService.js:74 | a power of a ratio in [0, 1] stays in [0, 1] |
| Beacon.PowMonotone | backend/src/services/beaconService.js:74 | the power is monotone in its base on [0, 1] |
| Beacon.Round2 | backend/src/services/beaconService.js:77 | rounding to two decimals moves a distance by at most half a hundredth |
| Beacon.EstimateDistance | backend/src/services/beaconService.js:66-79 | a zero RSSI gives -1; a signal stronger than the reference power gives a distance in [0, 1]; a weaker one follows the fitted curve |
| Beacon.EstimateMonotoneNear | backend/src/services/beaconService.js:73-74 | near the beacon, a stronger signal never gives a larger distance |
| Beacon.BeaconService.constructor | backend/src/services/beaconService.js:2-15 | the mapping is the configured one, or empty |
| Beacon.BeaconService.VerifyBeacon | backend/src/services/beaconService.js:17-64 | an unknown room is rejected; otherwise the first expected beacon decides, verified exactly when its signal is strong enough |
| Beacon.BeaconService.AddClassroomBeacons | backend/src/services/beaconService.js:81-84 | the room's beacon list is set to the given one |
| Beacon.BeaconService.RemoveClassroomBeacons | backend/src/services/beaconService.js:86-89 | the room is removed and every later scan for it is rejected as unconfigured |
| Beacon.MissingStrengthAccepted | backend/src/services/beaconService.js:43-63 | an expected beacon with no reported strength counts as RSSI 0 and is accepted |
| Beacon.EmptyScanRejected | backend/src/services/beaconService.js:29-40 | an empty scan is always rejected |
| WiFi.FirstNonEmpty | backend/src/services/wifiVerification.js:56-58 | the first field when it is non-empty, else the second |
| WiFi.Strength | backend/src/services/wifiVerification.js:43 | a non-zero level, else the signal strength, else 0 |
| WiFi.FirstExpected | backend/src/services/wifiVerification.js:29-31 | the first detected access point that is expected for the room, or none, and then no point is expected |
| WiFi.Bssids | backend/src/services/wifiVerification.js:26 | the reported BSSIDs are the detected points' BSSIDs, in order |
| WiFi.WiFiVerificationService.constructor | backend/src/services/wifiVerification.js:2-15 | the mapping is the configured one, or empty |
| WiFi.WiFiVerificationService.VerifyWiFi | backend/src/services/wifiVerification.js:17-60 | an unknown room is rejected; otherwise the first expected access point decides, verified exactly when its signal is strong enough |
| WiFi.WiFiVerificationService.AddClassroomWiFi | backend/src/services/wifiVerification.js:62-65 | the room's access point list is set to the given one |
| WiFi.WiFiVerificationService.RemoveClassroomWiFi | backend/src/services/wifiVerification.js:67-70 | the room is removed and every later scan for it is rejected as unconfigured |
| WiFi.FirstMatchDecides | backend/src/services/wifiVerification.js:29-52 | a weak first match is rejected even when a strong expected point follows it |
| Statistics.MeanCompare | backend/src/services/anomalyDetection.js:102-106 | comparing a mean with a constant is comparing the sum with the constant times the count |
| Statistics.Deviations | backend/src/services/anomalyDetection.js:174-175 | the i-th squared deviation belongs to the i-th time |
| Statistics.ScaledSum | backend/src/services/anomalyDetection.js:175 | a sum scaled by a constant is the sum of the scaled terms |
| Statistics.DeviationsScaled | backend/src/services/anomalyDetection.js:174-175 | the sum of squared deviations, times n squared, is an integer sum |
| Statistics.VarianceAsIntegers | backend/src/services/anomalyDetection.js:171-178 | a variance below 4 is, in integers, a scaled sum of squares below 4 n cubed |
| AnomalyDetection.Distances | backend/src/services/anomalyDetection.js:96-98 | a distance is listed exactly when some record reports it, and when every record reports one they are all listed in history order |
| AnomalyDetection.Durations | backend/src/services/anomalyDetection.js:113-115 | a duration is listed exactly when some record has it, and when every record has one they are all listed in history order |
| AnomalyDetection.EdgeMarkingAsSum | backend/src/services/anomalyDetection.js:94-110 | edge marking fires exactly when at least 3 distances are reported and their sum exceeds 15 times their count |
| AnomalyDetection.ShortDurationAsSum | backend/src/services/anomalyDetection.js:112-127 | short duration fires exactly when at least 3 durations are reported and their sum is below 10 times their count |
| AnomalyDetection.FailedChecks | backend/src/services/anomalyDetection.js:129-148 | the failed checks never exceed the checks made; they are none exactly when no record failed one, and all exactly when no record passed one |
| AnomalyDetection.FailedChecksAsIntegers | backend/src/services/anomalyDetection.js:129-148 | failed random checks fire exactly when at least 5 checks were made and more than 40 percent failed, read in integers |
| AnomalyDetection.Devices | backend/src/services/anomalyDetection.js:151-153 | the devices are exactly the non-empty fingerprints some record reports, never more than the records |
| AnomalyDetection.DeviceHoppingNeedsFourRecords | backend/src/services/anomalyDetection.js:150-161 | device hopping can fire only on a history of at least four records |
| AnomalyDetection.MinutesOf | backend/src/services/anomalyDetection.js:164-169 | the i-th minute of day is that of the i-th record |
| AnomalyDetection.ConsistentTimingAsIntegers | backend/src/services/anomalyDetection.js:163-184 | consistent timing fires exactly when at least 5 records have an integer-scaled variance below 4 |
| AnomalyDetection.SimilarLocations | backend/src/services/anomalyDetection.js:186-211 | the similar records are exactly the other records of the session marked at or after a minute before the current record, under 5 m from it |
| AnomalyDetection.NoLocationNoBatch | backend/src/services/anomalyDetection.js:203 | a record without a location never raises batch marking |
| AnomalyDetection.OnCampusCount | backend/src/services/anomalyDetection.js:221 | the on-campus count never exceeds the history; it is all of it exactly when no record is explicitly off campus, and none exactly when every record is |
| AnomalyDetection.RemoteMarkingAsIntegers | backend/src/services/anomalyDetection.js:220-232 | remote marking fires exactly when the history is non-empty and more than 20 percent of it is explicitly off campus, read in integers |
| AnomalyDetection.FlagAt | backend/src/services/anomalyDetection.js:17-64 | the heuristics run in a fixed order, and position i holds the flag of rank i |
| AnomalyDetection.FlagsOrdered | backend/src/services/anomalyDetection.js:17-64 | the raised flags follow the heuristics' order, and none repeats |
| AnomalyDetection.FlagsFaithful | backend/src/services/anomalyDetection.js:17-64 | a flag is raised exactly when its heuristic fires |
| AnomalyDetection.FlagsPoints | backend/src/services/anomalyDetection.js:19-63 | the risk points are the sum of each fired heuristic's weight |
| AnomalyDetection.Raise | backend/src/services/anomalyDetection.js:18-22 | one heuristic step appends its flag when it fires and adds its points |
| AnomalyDetection.RaiseAll | backend/src/services/anomalyDetection.js:17-64 | the loop over the heuristics yields exactly the fired flags and their points |
| AnomalyDetection.AnalyzeAttendancePattern | backend/src/services/anomalyDetection.js:5-79 | a history of fewer than 5 records raises nothing; otherwise the fired flags are raised, and the risk score is their points capped at 100 |
| AttendanceModel.PassedCount | backend/src/models/Attendance.js:125-134 | the passed checks never exceed the checks |
| AttendanceModel.PassedCountAppend | backend/src/models/Attendance.js:225-240 | a new check adds one to the passed count exactly when it passed |
| AttendanceModel.Duration | backend/src/models/Attendance.js:242-245 | a duration exists exactly when both entry and exit are known, and then it is their difference in minutes |
| AttendanceModel.AttendanceRecord.Create | backend/src/models/Attendance.js:4-202 | a new record holds the claim's data, is marked now, is unreviewed and has no random checks |
| AttendanceModel.AttendanceRecord.Default | backend/src/models/Attendance.js:28-31 | a record created without data is pending review with zero scores and no checks |
| AttendanceModel.AttendanceRecord.Update | backend/src/controllers/studentController.js:211-213 | a resubmission overwrites the claim's fields and keeps the marking time, the review and the random checks |
| AttendanceModel.AttendanceRecord.MarkAsPresent | backend/src/models/Attendance.js:219-223 | the record becomes present with entry time now |
| AttendanceModel.AttendanceRecord.AddRandomCheck | backend/src/models/Attendance.js:225-240 | the check is appended, its counter is bumped, and the counters keep matching the checks |
| AttendanceModel.AttendanceRecord.CalculateDuration | backend/src/models/Attendance.js:242-245 | the duration of the record's own entry and exit times |
| AttendanceModel.AttendanceTable.Find | backend/src/models/Attendance.js:214 | it finds the record exactly when the student and session pair has one |
| AttendanceModel.AttendanceTable.Insert | backend/src/models/Attendance.js:214 | the record is stored under its own student and session pair |
| AttendanceModel.OneRecordPerPair | backend/src/models/Attendance.js:214 | a student has at most one record per session |
| AttendanceModel.CountsBounded | backend/src/models/Session.js:160-166 | the counts of two different statuses never exceed the session's records |
| SessionModel.Session.constructor | backend/src/models/Session.js:64-113 | a new session is scheduled, has no window and no token, zero counters, and the given or default settings |
| SessionModel.Session.CanMarkAttendance | backend/src/models/Session.js:146-155 | attendance can be marked only in an active session, within its window |
| SessionModel.Session.UpdateAttendanceCount | backend/src/models/Session.js:157-168 | as intended (see Findings): the counters become the numbers of present and absent records of the session, which never exceed its records |
| SessionModel.WindowInclusive | backend/src/models/Session.js:152-153 | both ends of the window are inside it, and the instants just outside are not |
| SessionModel.CountAsWritten | backend/src/models/Session.js:165-166 | as written, the status-named property of the list of rows is missing, so the counter is always 0 |
| SessionModel.CountIntended | backend/src/models/Session.js:160-166 | the count of the first row for the status, wherever it stands, or 0 when no row is for it |
| SessionModel.CountAsWrittenMissesPresentRecord | backend/src/models/Session.js:160-166 | a session with one present record reports 0 present as written, against 1 as intended |
| UserModel.KnownFingerprintUnchanged | backend/src/models/User.js:128 | a known device fingerprint leaves the list unchanged |
| UserModel.NewFingerprintAppended | backend/src/models/User.js:128-133 | a new fingerprint goes last, and the oldest is dropped once there are more than five |
| UserModel.FingerprintsBounded | backend/src/models/User.js:130-132 | at most five fingerprints are kept |
| UserModel.FingerprintsStayDistinct | backend/src/models/User.js:124-136 | the fingerprint list never holds a duplicate |
| UserModel.ToJson | backend/src/models/User.js:118-122 | the serialised user has every attribute except the password |
| UserModel.User.constructor | backend/src/models/User.js:75 | a new user has the given attributes and no device fingerprints |
| UserModel.User.AddDeviceFingerprint | backend/src/models/User.js:124-136 | the list becomes the one with the fingerprint added, and stays bounded and duplicate-free |
| FacultyController.DateStamp | backend/src/controllers/facultyController.js:415 | none for an invalid date; eight digits for the years 0 to 9999; a sign and ten digits after 9999; ten digits before year 0, whose minus sign goes with the dashes |
| FacultyController.ExtendedYearStamps | backend/src/controllers/facultyController.js:415 | the first day of 10000 stamps as "+0100000101", and that of the year before 0 as "0000010101" |
| FacultyController.Suffix | backend/src/controllers/facultyController.js:416 | the suffix is the upper-cased characters 2 to 5 of the random text, four of them when the text is long enough |
| FacultyController.GenerateSessionCode | backend/src/controllers/facultyController.js:414-418 | none exactly for an invalid date; otherwise the course code, the stamp and the suffix with two dashes, ten characters beyond course code and suffix for a four-digit year |
| FacultyController.SessionCodeFields | backend/src/controllers/facultyController.js:414-418 | for a four-digit year the code reads as course code, dash, year, month and day, dash, suffix |
| FacultyController.Retired | backend/src/controllers/facultyController.js:128-131 | the session's current token is gone from the store, and no key is added |
| FacultyController.CreateSession | backend/src/controllers/facultyController.js:7-55 | an invalid date is answered with "Failed to create session" and creates nothing; otherwise a new scheduled session with its generated code, the given fields and zero counters |
| FacultyController.StartSession | backend/src/controllers/facultyController.js:59-99 | another faculty's or an unknown session is not found and nothing changes; otherwise the session is active with a fifteen-minute window and a freshly issued token |
| FacultyController.StartedWindow | backend/src/controllers/facultyController.js:76-79 | after a start, attendance can be marked exactly from the start to fifteen minutes later |
| FacultyController.StartedTokenAccepted | backend/src/controllers/facultyController.js:83-89 | the token issued at the start is accepted for that session |
| FacultyController.GenerateQR | backend/src/controllers/facultyController.js:112-149 | only the owner of an active session rotates: the old token is retired, a new one is issued and recorded |
| FacultyController.RotationRetiresOldToken | backend/src/controllers/facultyController.js:128-141 | after a rotation the previous token is refused |
| FacultyController.EndSession | backend/src/controllers/facultyController.js:162-195 | another faculty's or an unknown session is not found; the owner's session becomes completed, its window ends now so no later marking is possible, and its token is retired |
| FacultyController.GetSessionReport | backend/src/controllers/facultyController.js:208-240 | not found exactly for a session that is not the caller's; otherwise the report counts each status of the session's records |
| FacultyController.StatusCountsBounded | backend/src/controllers/facultyController.js:234-240 | the status counts of a report add up to at most the session's records |
| FacultyController.ReviewedStatus | backend/src/controllers/facultyController.js:321 | "approve" makes a record present, any other decision absent |
| FacultyController.ApplyReview | backend/src/controllers/facultyController.js:321-326 | the reviewed record gets its status, reviewer, time and notes, and no longer needs review |
| FacultyController.ReviewAttendance | backend/src/controllers/facultyController.js:301-332 | not found exactly when no record with that id belongs to a session of the reviewer; otherwise that record, and only it, is reviewed |
| StudentController.Screen | backend/src/controllers/studentController.js:26-53 | a claim passes screening exactly when the session exists, its window is open and the student is not already present, and otherwise fails for the first of these |
| StudentController.Gate | backend/src/controllers/studentController.js:26-77 | a claim gets past the gate exactly when it passes screening and its token is accepted; a refused token reports the refusal reason |
| StudentController.LocationCheck | backend/src/controllers/studentController.js:133-134 | a location result exists exactly when a location was sent |
| StudentController.ScoreOfClaim | backend/src/controllers/studentController.js:79-166 | the total is the sum of the earned factor points, between 25 and 100 |
| StudentController.DecisionAtThreshold | backend/src/controllers/studentController.js:168-204 | a claim is present exactly at 75 points or more; below that it is pending review with the reason |
| StudentController.ReviewReasonText | backend/src/controllers/studentController.js:204 | for every two-digit score, so every score a claim can reach below 75, the reason shows the score's two digits over 75 |
| StudentController.PassNeedsFace | backend/src/controllers/studentController.js:168-170 | a claim cannot pass without a verified face |
| StudentController.FaceAndLocationPass | backend/src/controllers/studentController.js:168-170 | a verified face with a valid location passes, whatever else |
| StudentController.EdgeFlagIffFar | backend/src/controllers/studentController.js:176-180 | the edge-proximity flag is raised exactly when the reported distance is over 15 m |
| StudentController.ScansEarnPointsUnexamined | backend/src/controllers/studentController.js:153-166 | a required Wi-Fi or beacon factor earns its points for any supplied scan, even an empty one |
| StudentController.CheckCount | backend/src/controllers/studentController.js:258 | the configured number of checks, or 3 when unset or zero |
| StudentController.CheckTimesWithinClass | backend/src/controllers/studentController.js:257-263 | the check times are n strictly increasing instants inside the class hour |
| StudentController.DefaultCheckTimes | backend/src/controllers/studentController.js:257-263 | by default the checks fall at 15, 30 and 45 minutes |
| StudentController.ScheduleRandomChecks | backend/src/controllers/studentController.js:252-268 | a known session gets the check times; an unknown one none |
| StudentController.ScoreClaim | backend/src/controllers/studentController.js:79-166 | the computed factors and total are those of the claim |
| StudentController.ClaimRecord | backend/src/controllers/studentController.js:168-208 | the record data is the one the claim's factors and total decide |
| StudentController.WriteRecord | backend/src/controllers/studentController.js:210-216 | an existing record is updated in place; otherwise a new one is inserted, and either way the pair's record holds the data |
| StudentController.MarkedOutcome | backend/src/controllers/studentController.js:222-239 | the reply says passed exactly for a present record, and schedules checks only then |
| StudentController.RecordClaim | backend/src/controllers/studentController.js:210-224 | the claim is stored as the pair's record and the reply reflects it |
| StudentController.TokenStoreEffect | backend/src/controllers/studentController.js:69-83 | an accepted token is redeemed for the student; a refused one leaves the store as the verification left it |
| StudentController.RedeemToken | backend/src/controllers/studentController.js:69-83 | the token's verdict is computed and the store changes as the effect says |
| StudentController.Screening | backend/src/controllers/studentController.js:26-53 | the rejection is the screening verdict, and a passed claim knows whether a record exists |
| StudentController.Accept | backend/src/controllers/studentController.js:79-239 | for an accepted token: the claim is scored and stored, and nothing else changes |
| StudentController.Admit | backend/src/controllers/studentController.js:69-239 | marked exactly when the token is accepted; a refused token writes no record |
| StudentController.MarkAttendance | backend/src/controllers/studentController.js:10-249 | a claim that fails screening or its token changes no record; one that passes leaves the pair's record holding the claim's data |
| StudentController.CheckLocation | backend/src/controllers/studentController.js:309-310 | the location verdict when one was sent; an unknown room is reported whatever was sent; a known room with no location fails |
| StudentController.CheckFace | backend/src/controllers/studentController.js:313-317 | no face sent counts as verified; otherwise the evaluation as given |
| StudentController.NoLocationNeverPasses | backend/src/controllers/studentController.js:309-319 | a spot check without a location never passes |
| StudentController.CheckPassedIff | backend/src/controllers/studentController.js:319 | a spot check passes exactly when the location is valid and the face is verified |
| StudentController.RespondToRandomCheck | backend/src/controllers/studentController.js:290-330 | a missing record is reported; otherwise the check is appended to the record and its counters kept consistent |
| Biometrics.Divide | backend/src/controllers/authController.js:346 | division by a non-zero number is exact; 0/0 is NaN |
| Biometrics.ClampUnit | backend/src/controllers/authController.js:347 | the clamp keeps NaN, otherwise lands in [0, 1], and leaves a value already there unchanged |
| Biometrics.Accumulate | backend/src/controllers/authController.js:336-344 | the loop computes the dot product and both squared norms |
| Biometrics.CalculateSimilarity | backend/src/controllers/authController.js:330-348 | the similarity is 0 when an embedding is missing, and otherwise NaN or in [0, 1] |
| Biometrics.EmptyEmbeddingsGiveNaN | backend/src/controllers/authController.js:340-347 | as written, two empty embeddings give NaN |
| Biometrics.Similarity | backend/src/controllers/authController.js:347 | the corrected similarity is always in [0, 1] and agrees wherever the original is a number |
| Biometrics.CheckFactor | backend/src/controllers/authController.js:286-289 | a factor is verified exactly when the similarity exceeds the threshold; its confidence is the similarity as a percentage rounded half up, between 0 and 100 |
| Biometrics.VerifiedConfidence | backend/src/controllers/authController.js:287-288 | a verified factor's confidence is at least the threshold's percentage |
| Biometrics.Round | backend/src/controllers/authController.js:288 | `Math.round`: the integer nearest the value, halves upward |
| Biometrics.RiskOf | backend/src/controllers/authController.js:318 | low risk above 85, high at 70 or below, medium between |
| Biometrics.RiskMonotone | backend/src/controllers/authController.js:318 | a higher score never gives a higher risk |
| Biometrics.Combine | backend/src/controllers/authController.js:311-319 | verified exactly when the mean of the factor points exceeds 75; the confidence is that mean rounded half up, with the risk of that mean |
| Biometrics.UnverifiedAddsNothing | backend/src/controllers/authController.js:311-312 | an unverified factor's confidence has no effect on the result |
| Biometrics.OneFactorNeverVerifies | backend/src/controllers/authController.js:311-316 | one verified factor alone never verifies |
| Biometrics.FaceCheck | backend/src/controllers/authController.js:277-291 | the face is checked only with an image, an embedding and a stored embedding, and then against the 0.8 threshold on their similarity; it is verified exactly when checked with a similarity above 0.8 |
| Biometrics.FingerprintCheck | backend/src/controllers/authController.js:294-308 | the fingerprint is checked only with submitted and stored data, and then against the 0.85 threshold on their similarity; it is verified exactly when checked with a similarity above 0.85 |
| Biometrics.VerifyBiometrics | backend/src/controllers/authController.js:257-319 | the face and fingerprint results are the two factor checks, and the overall result combines them |
| Biometrics.VerifiedIffBoth | backend/src/controllers/authController.js:286-316 | the overall result is verified exactly when both the face and the fingerprint are verified |
| Helpers.Slice | backend/src/utils/helpers.js:44 | the slice has as many elements as the resolved bounds are apart (none when they cross), each the element at the resolved start plus its position; bounds inside the sequence give that part, and a negative start counts from the end |
| Helpers.CeilDiv | backend/src/utils/helpers.js:48 | the page count is the least number of pages that covers the items |
| Helpers.Paginate | backend/src/utils/helpers.js:39-50 | the page echoes its number and limit with the item total; the page count is the least number of pages covering the items for a positive limit, a non-positive whole number for a negative one, and Infinity or NaN for a zero limit |
| Helpers.PageCountOf | backend/src/utils/helpers.js:48 | `Math.ceil(n / limit)`: the least covering page count for a positive limit; for a negative limit the whole number between `n / limit` and one above it; Infinity of items and NaN of none for a zero limit |
| Helpers.FirstPageOfNonPositiveLimit | backend/src/utils/helpers.js:40-44 | page 1 with a zero limit is empty, and with a limit -k holds every item but the last k |
| Helpers.PageWithinLimit | backend/src/utils/helpers.js:40-44 | a page never holds more than the limit |
| Helpers.PageContents | backend/src/utils/helpers.js:40-44 | a page holds the items from its offset on, in order |
| Helpers.PagesInRange | backend/src/utils/helpers.js:39-50 | a page within the page count holds at least one item, and a page beyond it is empty |
| Helpers.MaskStringAsWritten | backend/src/utils/helpers.js:135-140 | masking as written, where a zero visible count keeps the whole string |
| Helpers.MaskZeroVisibleKeepsEverything | backend/src/utils/helpers.js:135-140 | as written, masking "ab" with nothing visible gives "**ab" and not "**" |
| Helpers.MaskString | backend/src/utils/helpers.js:135-140 | a short string is kept; otherwise the length is kept, all but the last visibleChars are stars and the tail is kept |
| Helpers.MaskAgreesWhenVisible | backend/src/utils/helpers.js:135-140 | with at least one visible character, the corrected mask agrees with the original |
| Helpers.Unique | backend/src/utils/helpers.js:87-89 | the result has exactly the input's elements, without duplicates |
| Helpers.UniqueKeepsFirstOrder | backend/src/utils/helpers.js:87-89 | the result follows the order of first occurrence |
| Helpers.GroupBy | backend/src/utils/helpers.js:92-101 | the loop builds the groups of the input by key |
| Helpers.GroupsAreFilters | backend/src/utils/helpers.js:92-101 | a key has a group exactly when some item has it, and the group is the items with that key, in order |
| Helpers.GroupSizesSum | backend/src/utils/helpers.js:92-101 | the group sizes add up to the number of items |
| Helpers.SizeSumCovering | backend/src/utils/helpers.js:92-101 | counting over distinct keys that cover every item counts each item once |
| Helpers.Sanitize | backend/src/utils/helpers.js:65-67 | the result has no angle brackets and is no longer than the input |
| Helpers.SanitizeKeepsOthers | backend/src/utils/helpers.js:65-67 | every other character keeps its number of occurrences |
| Helpers.SanitizeIdempotent | backend/src/utils/helpers.js:65-67 | sanitising twice is sanitising once |
| Helpers.SanitizeClean | backend/src/utils/helpers.js:65-67 | a string without brackets is unchanged |
| Helpers.Fixed | backend/src/utils/helpers.js:35 | `toFixed` read back: within half a unit of the last place of the value, with its sign |
| Helpers.CalculatePercentage | backend/src/utils/helpers.js:33-36 | 0 of a zero total; otherwise the share rounded to the decimals, never more than half a unit of the last place from the exact share |
| Helpers.WholeIsHundred | backend/src/utils/helpers.js:33-36 | the whole of a non-zero total is exactly 100 percent |
| Formatters.UnitsDescending | frontend/src/utils/formatters.js:33-40 | the time units are tried from largest to smallest |
| Formatters.TimeAgo | frontend/src/utils/formatters.js:29-50 | nothing for a missing date or the instant 0; otherwise the phrase for the age in seconds |
| Formatters.AgoPicksLargestUnit | frontend/src/utils/formatters.js:42-46 | the phrase names the largest unit the age reaches, counted in whole units |
| Formatters.AgoBelowAllUnits | frontend/src/utils/formatters.js:42-49 | an age below every unit reads "Just now" |
| Formatters.UnderAMinuteIsJustNow | frontend/src/utils/formatters.js:42-49 | an age below a minute, a future date included, reads "Just now" |
| Formatters.FixedTextReadsBack | frontend/src/utils/formatters.js:54 | the fixed-point text reads back as the rounded value |
| Formatters.Percentage | frontend/src/utils/formatters.js:52-55 | "0%" of a zero total; otherwise the share in fixed point followed by "%" |
| Formatters.Capitalize | frontend/src/utils/formatters.js:73-76 | the first character is upper-cased and the rest kept |
| Formatters.CapitalizeIdempotent | frontend/src/utils/formatters.js:73-76 | capitalising twice is capitalising once |
| Formatters.Truncate | frontend/src/utils/formatters.js:85-88 | a short text is kept; a long one becomes its prefix followed by "..." |
| Formatters.TruncateBounded | frontend/src/utils/formatters.js:85-88 | a truncated text is at most the limit plus three characters |
| Formatters.Phone | frontend/src/utils/formatters.js:90-98 | a ten-digit number becomes "(ddd) ddd-dddd"; anything else is kept |
| Formatters.PhoneKeepsDigits | frontend/src/utils/formatters.js:90-98 | formatting keeps the digits, in order |
| Formatters.StatusBadge | frontend/src/utils/formatters.js:100-112 | each known status gets its colour; anything else is grey |
| Formatters.AttendanceBadges | frontend/src/utils/formatters.js:100-112 | the four coloured attendance statuses have four different colours, and partial is grey |
| Validators.EmptyFailsMaxLength | frontend/src/utils/validators.js:28-30 | as written, the empty string fails a maximum length |
| Validators.MaxLengthAgreesOnNonEmpty | frontend/src/utils/validators.js:28-30 | on a non-empty string, the corrected maximum-length rule agrees with the original |
| Validators.ValidatorLengths | frontend/src/utils/validators.js:7-35 | a password needs 6 characters, a student id 3, a required value must be truthy, and a missing value is alphanumeric |
| Validators.ValidateForm | frontend/src/utils/validators.js:42-61 | the errors are those of the rules, and the form is valid exactly when there are none |
| Validators.FirstFailureIsFirst | frontend/src/utils/validators.js:49-54 | the reported message is that of the first failing rule, and none means no rule fails |
| Validators.ErrorsAreFirstFailures | frontend/src/utils/validators.js:45-56 | each ruled field's error is its first failing rule's message |
| Validators.UnruledFieldHasNoError | frontend/src/utils/validators.js:45-56 | a field without rules has no error |
| Validators.ErrorsOnlyForRuledFields | frontend/src/utils/validators.js:45-56 | an error belongs to a field that has rules |
| Validators.ValidIffNoRuleFails | frontend/src/utils/validators.js:57-59 | the form is valid exactly when no rule of any field fails |

## Left out

- Network, database and socket I/O are not modelled. The ORM queries are modelled as the attendance table and the session map. The redis client path and the socket events are left out.
- Clocks and randomness are not modelled. They become parameters: `now`, the random text of the session code, the token and the record ids.
- Timers are not modelled. The scheduled random checks are returned as the times they would fire, and the rotation invalidation as its due instant. `performRandomCheck` is not modelled.
- Distances are not computed. geolib's distance in whole metres and the haversine distance of the anomaly engine are function parameters.
- Floating-point arithmetic is replaced by exact reals. NaN is modelled only in the biometric similarity as written (`Biometrics.CalculateSimilarity`) and in the page count of a zero limit.
- Biometrics.VerifyBiometrics: it uses the corrected, NaN-free `Biometrics.Similarity`, so the NaN confidence the source reports for a zero-norm embedding is not reproduced; the model reports confidence 0, and the factor is unverified in both.
- `Math.sqrt` and `Math.pow(ratio, 7.7095)` are parameters (`sqrt`, `farCurve`). The distance estimate is proved only in terms of them.
- The rounded statistics the anomaly heuristics report beside their verdicts (`avgDistance`, `avgDuration`, `failureRate`, `rate`, `uniqueDevices`) are not modelled; the detections carry only whether each heuristic fired. `Math.round` of the biometric confidences is modelled by `Biometrics.Round`.
- Face-recognition and liveness evaluation call image code that is not part of this model. Their outcomes are inputs of the claim.
- `markAbsentStudents` in the session end is not modelled. It does nothing in the source.
- The shortcut endpoints of the student controller are not modelled. They return fixed replies.
- The listing endpoints (all classrooms, all mappings, my sessions, pending reviews) are not modelled. They only read back tables whose updates are modelled.
- Concurrency between requests is not modelled. Every operation is atomic.
- `checkRateLimit` on the in-memory path throws in the source. It is modelled only as the counter the store keeps.
- `Cache.MemoryCache.Get`: a stored falsy value (0, "" or false) reads as missing in the source. The model returns the stored value.
- `Formatters.StatusBadge`: the object-prototype keys (such as "constructor") that the source's lookup would also find are not modelled.
- Object-prototype keys are not modelled in the other lookups either: a classroom id such as "constructor" or "toString" finds an inherited member in the source's room, beacon and Wi-Fi tables and in `groupBy`'s accumulator, while the model's maps hold only what was put in them.
- The room tables are plain objects, which enumerate integer-like keys (such as "101") in ascending order before the others; the model enumerates every id in insertion order.
- Text is ASCII, and upper-casing covers only the letters a-z.
- The minute of day of a record is an input. Local time and time zones are not modelled.
- Database defaults and indexes other than the unique (student, session) pair are not modelled.
- StudentController.RecordClaim and StudentController.MarkAttendance: the recount after writing the record is the corrected one of `SessionModel.Session.UpdateAttendanceCount`; as written the source sets both counters to 0 (see Findings).
- FacultyController.EndSession and StudentController.MarkAttendance: the model calls each handler as a method of its controller, with the session id supplied. The routes (backend/src/routes/faculty.js:13, backend/src/routes/student.js:10) pass the handlers unbound, so `this` is undefined in them (class bodies are strict mode). This is not executed, and the model does not capture three consequences:
  - `endSession` throws at `this.markAbsentStudents` (facultyController.js:179) before the status is set or the token invalidated. It replies 500 "Failed to end session", and the session stays active with its token live.
  - A passing `markAttendance` writes the record and recounts, then throws at `this.scheduleRandomChecks` (studentController.js:223). It replies 500 and schedules no checks.
  - The route `/attendance/mark` has no `:sessionId`, so `req.params.sessionId` (studentController.js:12) is undefined and every claim is answered 404.
- Reply and record fields that carry no decision are dropped: the record's `wifiNetworks`, `bluetoothBeacons` and `confidenceScores` (studentController.js:187-198) are not in `AttendanceModel.Evidence`; the mark reply's `threshold` (studentController.js:232) is not in `StudentController.Marked`; and the `speed` that `Geofencing.GeofencingService.CheckLocationConsistency` reports (geofencing.js:167,175) is not returned.
- FacultyController.DateStamp: the date string is an input already parsed (`DateValue`); how `new Date` parses text is not modelled, nor the limit of about 275760 years on a valid date, so the stamp's length is stated only for years of at most six digits.
- Session.create failures other than the invalid date are database errors and are not modelled.

## Findings

| source | as written | input that shows it | evidently intended | confidence | as-written member | corrected member |
|---|---|---|---|---|---|---|
| backend/src/models/Session.js:165-166 | the grouped count comes back as an array of rows, so reading `.present` off it gives undefined and both counters are set to 0 | a session with one present record | presentCount 1, absentCount the number of absent records | not executed; medium | SessionModel.CountAsWrittenMissesPresentRecord | SessionModel.Session.UpdateAttendanceCount |
| backend/src/controllers/authController.js:346-347 | 0/0 is NaN, and the clamp passes NaN through | two empty embeddings | a similarity of 0 | not executed; high | Biometrics.EmptyEmbeddingsGiveNaN | Biometrics.Similarity |
| backend/src/utils/helpers.js:137 | `slice(-0)` is `slice(0)`, so the unmasked tail is the whole string | maskString("ab", 0) gives "**ab" | "**" | not executed; high | Helpers.MaskZeroVisibleKeepsEverything | Helpers.MaskString |
| frontend/src/utils/validators.js:28-30 | an empty string is falsy, so it fails a maximum length | maxLength(10) on "" | "" passes, as it is within any maximum | not executed; low | Validators.EmptyFailsMaxLength | Validators.MaxLengthAgreesOnNonEmpty |
