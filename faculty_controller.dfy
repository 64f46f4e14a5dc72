/** The faculty side of a session's lifecycle: creating it, opening its attendance window with a
    first presence token, rotating that token, closing the session, reporting its records, and
    deciding the claims held for review.

    Sessions are looked up by id among the caller's own sessions; the session table is the map
    `sessions` from id to session. Token strings and the random text of a session code are
    inputs (they come from a random source), as is the clock `now`. */
module FacultyController {
  import opened Wrappers
  import opened Text
  import opened Constants
  import opened Cache
  import opened Geofencing
  import opened QRCode
  import opened AttendanceModel
  import opened SessionModel

  /** The attendance window a start opens: 15 minutes. */
  const WindowMillis := 15 * 60000

  /** An action's answer: a lookup that found nothing, or what the action produced. */
  datatype Reply<T> = NotFound(message: string) | Done(value: T)

  /** The record counts of a session report. */
  datatype Stats = Stats(total: nat, present: nat, absent: nat, late: nat, pendingReview: nat)

  type Month = m: nat | 1 <= m <= 12 witness 1
  type MonthDay = d: nat | 1 <= d <= 31 witness 1

  /** A new session's date as `new Date(date)` holds it: an invalid date, or the UTC calendar
      day of a valid one, whose year may lie before 0 or after 9999. */
  datatype DateValue = InvalidDate | Day(year: int, month: Month, day: MonthDay)

  /** The year as the ISO rendering prints it, less any dash: four digits for the years 0 to
      9999; otherwise six digits behind a sign, where the minus sign of a year before 0 goes
      with the other dashes and the plus sign of a year after 9999 remains. */
  function YearDigits(year: int): (s: string)
    ensures 0 <= year <= 9999 ==> |s| == 4 && forall i :: 0 <= i < |s| ==> IsDigit(s[i])
    ensures 9999 < year < 1000000 ==> |s| == 7 && s[0] == '+' && forall i :: 1 <= i < |s| ==> IsDigit(s[i])
    ensures -1000000 < year < 0 ==> |s| == 6 && forall i :: 0 <= i < |s| ==> IsDigit(s[i])
  {
    assert Pow10(4) == 10000 && Pow10(6) == 1000000;
    if 0 <= year <= 9999 then
      PadNatWidth(year, 4);
      PadNat(year, 4)
    else if year > 9999 then
      SixDigits(year);
      "+" + PadNat(year, 6)
    else
      SixDigits(-year);
      PadNat(-year, 6)
  }

  lemma SixDigits(n: nat)
    ensures n < 1000000 ==> |PadNat(n, 6)| == 6
  {
    if n < 1000000 {
      assert Pow10(6) == 1000000;
      PadNatWidth(n, 6);
    }
  }

  /** The date stamp: the ISO rendering of the date cut at the time and with every dash
      removed; none for an invalid date, whose ISO rendering throws. Years 0 to 9999 give
      eight digits `yyyymmdd`. */
  function DateStamp(d: DateValue): (s: Option<string>)
    ensures s.None? <==> d.InvalidDate?
    ensures d.Day? && 0 <= d.year <= 9999 ==> |s.value| == 8 && forall i :: 0 <= i < 8 ==> IsDigit(s.value[i])
    ensures d.Day? && 9999 < d.year < 1000000 ==>
              |s.value| == 11 && s.value[0] == '+' && forall i :: 1 <= i < 11 ==> IsDigit(s.value[i])
    ensures d.Day? && -1000000 < d.year < 0 ==> |s.value| == 10 && forall i :: 0 <= i < 10 ==> IsDigit(s.value[i])
  {
    match d
    case InvalidDate => None
    case Day(year, month, day) =>
      assert Pow10(2) == 100;
      PadNatWidth(month, 2);
      PadNatWidth(day, 2);
      Some(YearDigits(year) + PadNat(month, 2) + PadNat(day, 2))
  }

  /** Years outside 0 to 9999: the first day of 10000 keeps its plus sign, and the first day of
      the year before 0 loses its minus sign, so its stamp reads like that of a year after it. */
  lemma ExtendedYearStamps()
    ensures DateStamp(Day(10000, 1, 1)) == Some("+0100000101")
    ensures DateStamp(Day(-1, 1, 1)) == Some("0000010101")
  {
    assert NatToString(10000) == "10000" by {
      assert NatToString(1) == "1";
      assert NatToString(10) == "10";
      assert NatToString(100) == "100";
      assert NatToString(1000) == "1000";
    }
    assert NatToString(1) == "1";
    assert Zeros(1) == "0" && Zeros(5) == "00000";
    assert PadNat(10000, 6) == "010000" && PadNat(1, 6) == "000001" && PadNat(1, 2) == "01";
    assert YearDigits(10000) == "+010000" && YearDigits(-1) == "000001";
    assert DateStamp(Day(10000, 1, 1)) == Some(YearDigits(10000) + PadNat(1, 2) + PadNat(1, 2));
    assert DateStamp(Day(-1, 1, 1)) == Some(YearDigits(-1) + PadNat(1, 2) + PadNat(1, 2));
    assert "+010000" + "01" + "01" == "+0100000101";
    assert "000001" + "01" + "01" == "0000010101";
  }

  /** The suffix of a session code: characters 2 to 5 of the base-36 rendering of a random
      fraction (the text after "0."), upper-cased. */
  function Suffix(randomText: string): (r: string)
    ensures |r| <= 4
    ensures |randomText| >= 6 ==> |r| == 4
    ensures forall i :: 0 <= i < |r| ==> i + 2 < |randomText| && r[i] == ToUpper(randomText[i + 2])
  {
    var lo, hi := Min(2, |randomText|), Min(6, |randomText|);
    ToUpperAll(randomText[lo..hi])
  }

  /** The code of a new session: course code, date stamp and random suffix joined by dashes;
      none for an invalid date, whose rendering throws before a code is formed. */
  function GenerateSessionCode(courseCode: string, date: DateValue, randomText: string): (code: Option<string>)
    ensures code.None? <==> date.InvalidDate?
    ensures code.Some? ==> |code.value| == |courseCode| + 2 + |DateStamp(date).value| + |Suffix(randomText)|
    ensures date.Day? && 0 <= date.year <= 9999 ==> |code.value| == |courseCode| + 10 + |Suffix(randomText)|
  {
    match DateStamp(date)
    case None => None
    case Some(stamp) => Some(courseCode + "-" + stamp + "-" + Suffix(randomText))
  }

  /** A session code reads back into its parts: the course code, a dash, the year, month and
      day of the date, a dash, and the suffix. */
  lemma SessionCodeFields(courseCode: string, date: DateValue, randomText: string)
    requires date.Day? && 0 <= date.year <= 9999
    ensures var code, n := GenerateSessionCode(courseCode, date, randomText).value, |courseCode|;
            && code[..n] == courseCode && code[n] == '-' && code[n + 9] == '-'
            && DecimalValue(code[n + 1..n + 5]) == date.year
            && DecimalValue(code[n + 5..n + 7]) == date.month
            && DecimalValue(code[n + 7..n + 9]) == date.day
            && code[n + 10..] == Suffix(randomText)
  {
    var code, n := GenerateSessionCode(courseCode, date, randomText).value, |courseCode|;
    var stamp := DateStamp(date).value;
    assert code == courseCode + "-" + stamp + "-" + Suffix(randomText);
    assert code[n + 1..n + 9] == stamp;
    assert Pow10(4) == 10000 && Pow10(2) == 100;
    PadNatWidth(date.year, 4);
    PadNatWidth(date.month, 2);
    PadNatWidth(date.day, 2);
    assert code[n + 1..n + 5] == stamp[..4] == PadNat(date.year, 4);
    assert code[n + 5..n + 7] == stamp[4..6] == PadNat(date.month, 2);
    assert code[n + 7..n + 9] == stamp[6..] == PadNat(date.day, 2);
    PadNatRoundTrip(date.year, 4);
    PadNatRoundTrip(date.month, 2);
    PadNatRoundTrip(date.day, 2);
  }

  /** The session `sessionId` exists and belongs to `facultyId`. */
  predicate Owned(sessions: map<string, Session>, sessionId: string, facultyId: string) {
    sessionId in sessions && sessions[sessionId].facultyId == facultyId
  }

  /** The sessions an action may change: the looked-up one, when the lookup succeeds. */
  function Target(sessions: map<string, Session>, found: bool, sessionId: string): set<Session> {
    if found && sessionId in sessions then {sessions[sessionId]} else {}
  }

  /** The token store once the session's current token, when it has a non-empty one, is
      invalidated; a failing store is left as it was. */
  function Retired(faulty: bool, entries: map<string, Entry<TokenRecord>>, current: Option<string>)
    : (m: map<string, Entry<TokenRecord>>)
    ensures current.Some? && current.value != "" && !faulty ==> QRKey(current.value) !in m
    ensures m.Keys <= entries.Keys
  {
    if !faulty && current.Some? && current.value != "" then entries - {QRKey(current.value)} else entries
  }

  /** The token store after issuing `token` for a session to a store holding `entries`. */
  function IssuedTo(faulty: bool, entries: map<string, Entry<TokenRecord>>, sessionId: string, classroom: string,
                    token: string, validity: int, now: int): map<string, Entry<TokenRecord>>
  {
    if faulty then entries
    else Put(entries, QRKey(token), Issued(sessionId, classroom, token, validity, now), validity, now)
  }

  /** What creating a session answers: the failure reply, or the new session. */
  datatype Creation = CreateFailed(message: string) | Created(session: Session)

  /** A new session, scheduled, with the given settings or, when none are given, an empty
      settings object (every requirement off). An invalid date makes the code generation
      throw, which is answered with the failure message and creates nothing. */
  method CreateSession(id: string, facultyId: string, courseCode: string, classroom: string, date: DateValue,
                       randomText: string, settings: Option<Settings>) returns (result: Creation)
    ensures date.InvalidDate? ==> result == CreateFailed("Failed to create session")
    ensures date.Day? ==> result.Created?
    ensures result.Created? ==>
      && fresh(result.session)
      && result.session.id == id && result.session.facultyId == facultyId
      && result.session.courseCode == courseCode && result.session.classroom == classroom
      && Some(result.session.sessionCode) == GenerateSessionCode(courseCode, date, randomText)
      && result.session.status == Scheduled
      && result.session.settings == settings.GetOr(EmptySettings)
      && result.session.attendanceWindowStart.None? && result.session.attendanceWindowEnd.None?
      && result.session.currentQRToken.None?
      && result.session.presentCount == 0 && result.session.absentCount == 0
  {
    var code := GenerateSessionCode(courseCode, date, randomText);
    if code.None? {
      return CreateFailed("Failed to create session");
    }
    var session := new Session(id, code.value, facultyId, courseCode, classroom, Some(settings.GetOr(EmptySettings)));
    result := Created(session);
  }

  /** Opens the attendance window for 15 minutes from `now` and issues the session's first
      token, which becomes its current token. A token issued earlier is left in the store. */
  method StartSession(sessions: map<string, Session>, qr: QRCodeService, facultyId: string, sessionId: string,
                      token: string, now: int) returns (reply: Reply<Generation>)
    modifies qr.cache`entries
    modifies Target(sessions, Owned(sessions, sessionId, facultyId), sessionId)`status,
             Target(sessions, Owned(sessions, sessionId, facultyId), sessionId)`attendanceWindowStart,
             Target(sessions, Owned(sessions, sessionId, facultyId), sessionId)`attendanceWindowEnd,
             Target(sessions, Owned(sessions, sessionId, facultyId), sessionId)`currentQRToken,
             Target(sessions, Owned(sessions, sessionId, facultyId), sessionId)`qrGeneratedAt
    ensures !Owned(sessions, sessionId, facultyId) ==>
              reply == NotFound("Session not found") && qr.cache.entries == old(qr.cache.entries)
    ensures Owned(sessions, sessionId, facultyId) ==>
              var s := sessions[sessionId];
              && s.status == Active
              && s.attendanceWindowStart == Some(now) && s.attendanceWindowEnd == Some(now + WindowMillis)
              && s.currentQRToken == Some(token) && s.qrGeneratedAt == Some(now)
              && reply == Done(Generation(token, now + qr.validity * 1000, qr.validity))
              && qr.cache.entries == IssuedTo(qr.cache.faulty, old(qr.cache.entries), sessionId, s.classroom, token,
                                              qr.validity, now)
              && s.CanMarkAttendance(now)
  {
    if !Owned(sessions, sessionId, facultyId) {
      return NotFound("Session not found");
    }
    var session := sessions[sessionId];
    session.status := Active;
    session.attendanceWindowStart := Some(now);
    session.attendanceWindowEnd := Some(now + WindowMillis);
    var g := qr.GenerateQRCode(sessionId, session.classroom, token, now);
    session.currentQRToken := Some(g.token);
    session.qrGeneratedAt := Some(now);
    reply := Done(g);
  }

  /** A started session takes claims from the start up to 15 minutes later, both included,
      and at no other time. */
  lemma StartedWindow(s: Session, start: int, t: int)
    requires s.status == Active
    requires s.attendanceWindowStart == Some(start) && s.attendanceWindowEnd == Some(start + WindowMillis)
    ensures s.CanMarkAttendance(t) <==> start <= t <= start + 900000
  {
  }

  /** The token a start issues is accepted, for that session, when its own payload is scanned
      without a location before it expires. */
  lemma StartedTokenAccepted(entries: map<string, Entry<TokenRecord>>, sessionId: string, classroom: string,
                             token: string, validity: int, start: int, now: int,
                             rooms: map<string, Room>, distance: (Point, Point) -> nat)
    requires token != "" && sessionId != ""
    requires start <= now < start + validity * 1000
    ensures var rec := Issued(sessionId, classroom, token, validity, start);
            Verdict(PayloadOf(rec), false, IssuedTo(false, entries, sessionId, classroom, token, validity, start),
                    now, None, rooms, distance)
              == Accepted(sessionId, Some(classroom), token)
  {
    IssuedTokenAccepted(entries, sessionId, classroom, token, validity, start, now, rooms, distance);
  }

  /** Rotates the token of an active session: the current token, if any, is invalidated first,
      then a new one is issued and becomes current. */
  method GenerateQR(sessions: map<string, Session>, qr: QRCodeService, facultyId: string, sessionId: string,
                    token: string, now: int) returns (reply: Reply<Generation>)
    modifies qr.cache`entries
    modifies Target(sessions, Owned(sessions, sessionId, facultyId) && sessions[sessionId].status == Active,
                    sessionId)`currentQRToken,
             Target(sessions, Owned(sessions, sessionId, facultyId) && sessions[sessionId].status == Active,
                    sessionId)`qrGeneratedAt
    ensures !(Owned(sessions, sessionId, facultyId) && sessions[sessionId].status == Active) ==>
              reply == NotFound("Active session not found") && qr.cache.entries == old(qr.cache.entries)
    ensures Owned(sessions, sessionId, facultyId) && sessions[sessionId].status == Active ==>
              var s := sessions[sessionId];
              && s.currentQRToken == Some(token) && s.qrGeneratedAt == Some(now)
              && reply == Done(Generation(token, now + qr.validity * 1000, qr.validity))
              && qr.cache.entries ==
                   IssuedTo(qr.cache.faulty, Retired(qr.cache.faulty, old(qr.cache.entries), old(s.currentQRToken)),
                            sessionId, s.classroom, token, qr.validity, now)
  {
    if !(Owned(sessions, sessionId, facultyId) && sessions[sessionId].status == Active) {
      return NotFound("Active session not found");
    }
    var session := sessions[sessionId];
    if session.currentQRToken.Some? && session.currentQRToken.value != "" {
      var _ := qr.InvalidateQRCode(session.currentQRToken.value);
    }
    var g := qr.GenerateQRCode(sessionId, session.classroom, token, now);
    session.currentQRToken := Some(g.token);
    session.qrGeneratedAt := Some(now);
    reply := Done(g);
  }

  /** After a rotation to a different token, the old token is refused whatever its payload
      says: it is no longer stored. */
  lemma RotationRetiresOldToken(entries: map<string, Entry<TokenRecord>>, previous: string, sessionId: string,
                                classroom: string, token: string, validity: int, now: int, scan: Scan,
                                t: int, location: Option<Location>, rooms: map<string, Room>,
                                distance: (Point, Point) -> nat)
    requires previous != token
    requires scan.Payload? && FieldText(scan.token) == previous != "" && FieldText(scan.sessionId) != ""
    ensures Verdict(scan, false, IssuedTo(false, Retired(false, entries, Some(previous)), sessionId, classroom, token,
                                          validity, now), t, location, rooms, distance)
              == Refused(NotStored)
  {
    var retired := Retired(false, entries, Some(previous));
    var rec := Issued(sessionId, classroom, token, validity, now);
    PrefixedKeysInjective(previous, token);
    LookupAfterPut(retired, QRKey(token), rec, validity, now, QRKey(previous), t);
    LookupAfterRemove(entries, QRKey(previous), QRKey(previous), t);
  }

  /** Closes a session: completed, window ended at `now`, current token invalidated. The
      absent-marking step it runs first changes nothing. The session keeps its current token
      field. */
  method EndSession(sessions: map<string, Session>, qr: QRCodeService, facultyId: string, sessionId: string,
                    now: int) returns (reply: Reply<Session>)
    modifies qr.cache`entries
    modifies Target(sessions, Owned(sessions, sessionId, facultyId), sessionId)`status,
             Target(sessions, Owned(sessions, sessionId, facultyId), sessionId)`attendanceWindowEnd
    ensures !Owned(sessions, sessionId, facultyId) ==>
              reply == NotFound("Session not found") && qr.cache.entries == old(qr.cache.entries)
    ensures Owned(sessions, sessionId, facultyId) ==>
              var s := sessions[sessionId];
              && reply == Done(s)
              && s.status == Completed && s.attendanceWindowEnd == Some(now)
              && qr.cache.entries == Retired(qr.cache.faulty, old(qr.cache.entries), s.currentQRToken)
              && (forall t :: !s.CanMarkAttendance(t))
  {
    if !Owned(sessions, sessionId, facultyId) {
      return NotFound("Session not found");
    }
    var session := sessions[sessionId];
    session.status := Completed;
    session.attendanceWindowEnd := Some(now);
    if session.currentQRToken.Some? && session.currentQRToken.value != "" {
      var _ := qr.InvalidateQRCode(session.currentQRToken.value);
    }
    reply := Done(session);
  }

  /** The attendance report of a session: its enrolment total and its records counted by
      status. */
  method GetSessionReport(sessions: map<string, Session>, table: AttendanceTable, facultyId: string,
                          sessionId: string) returns (reply: Reply<Stats>)
    ensures reply.NotFound? <==> !Owned(sessions, sessionId, facultyId)
    ensures reply.NotFound? ==> reply.message == "Session not found"
    ensures reply.Done? ==>
              reply.value == Stats(sessions[sessionId].totalStudents, table.Count(sessionId, Present),
                                   table.Count(sessionId, Absent), table.Count(sessionId, Late),
                                   table.Count(sessionId, PendingReview))
    ensures reply.Done? ==>
              var st := reply.value;
              st.present + st.absent + st.late + st.pendingReview <= |table.SessionKeys(sessionId)|
  {
    if !Owned(sessions, sessionId, facultyId) {
      return NotFound("Session not found");
    }
    var stats := Stats(sessions[sessionId].totalStudents, table.Count(sessionId, Present),
                       table.Count(sessionId, Absent), table.Count(sessionId, Late),
                       table.Count(sessionId, PendingReview));
    StatusCountsBounded(table, sessionId);
    reply := Done(stats);
  }

  /** Records of the four reported statuses are counted apart: together they never exceed the
      session's records. */
  lemma StatusCountsBounded(t: AttendanceTable, sessionId: string)
    ensures t.Count(sessionId, Present) + t.Count(sessionId, Absent) + t.Count(sessionId, Late) +
            t.Count(sessionId, PendingReview) <= |t.SessionKeys(sessionId)|
  {
    var p, a := t.WithStatus(sessionId, Present), t.WithStatus(sessionId, Absent);
    var l, r := t.WithStatus(sessionId, Late), t.WithStatus(sessionId, PendingReview);
    assert p * a == {} && (p + a) * l == {} && (p + a + l) * r == {};
    assert |p + a + l + r| == |p| + |a| + |l| + |r|;
    assert p + a + l + r <= t.SessionKeys(sessionId);
    SubsetCard(p + a + l + r, t.SessionKeys(sessionId));
  }

  /** The status a review sets: present on "approve", absent on any other decision. */
  function ReviewedStatus(decision: string): (s: AttendanceStatus)
    ensures s == Present <==> decision == "approve"
    ensures s != Present ==> s == Absent
  {
    if decision == "approve" then Present else Absent
  }

  /** The record under `k` has id `attendanceId` and belongs to a session of `reviewerId`. */
  predicate Reviewable(sessions: map<string, Session>, table: AttendanceTable, attendanceId: string,
                       reviewerId: string, k: (string, string))
    reads table
  {
    k in table.rows && table.rows[k].id == attendanceId && Owned(sessions, table.rows[k].sessionId, reviewerId)
  }

  /** Applies a faculty decision to one record: its status, the reviewer, the time, the notes,
      and the review flag cleared. */
  method ApplyReview(attendance: AttendanceRecord, reviewerId: string, decision: string, notes: Option<string>,
                     now: int)
    modifies attendance`status, attendance`reviewedBy, attendance`reviewedAt, attendance`reviewNotes,
             attendance`requiresManualReview
    ensures attendance.status == ReviewedStatus(decision)
    ensures attendance.reviewedBy == Some(reviewerId) && attendance.reviewedAt == Some(now)
    ensures attendance.reviewNotes == notes && !attendance.requiresManualReview
  {
    attendance.status := ReviewedStatus(decision);
    attendance.reviewedBy := Some(reviewerId);
    attendance.reviewedAt := Some(now);
    attendance.reviewNotes := notes;
    attendance.requiresManualReview := false;
  }

  /** Decides a record of one of the reviewer's sessions; no other record changes. */
  method ReviewAttendance(sessions: map<string, Session>, table: AttendanceTable, reviewerId: string,
                          attendanceId: string, decision: string, notes: Option<string>, now: int)
    returns (reply: Reply<AttendanceRecord>)
    modifies table.rows.Values`status, table.rows.Values`reviewedBy, table.rows.Values`reviewedAt,
             table.rows.Values`reviewNotes, table.rows.Values`requiresManualReview
    ensures reply.NotFound? <==> !exists k :: Reviewable(sessions, table, attendanceId, reviewerId, k)
    ensures reply.NotFound? ==> reply.message == "Attendance record not found"
    ensures reply.Done? ==>
              var r := reply.value;
              && (exists k :: Reviewable(sessions, table, attendanceId, reviewerId, k) && table.rows[k] == r)
              && r.status == ReviewedStatus(decision)
              && r.reviewedBy == Some(reviewerId) && r.reviewedAt == Some(now)
              && r.reviewNotes == notes && !r.requiresManualReview
    ensures forall r | r in table.rows.Values && reply != Done(r) :: unchanged(r)
  {
    if !exists k | k in table.rows :: Reviewable(sessions, table, attendanceId, reviewerId, k) {
      return NotFound("Attendance record not found");
    }
    var k :| k in table.rows && Reviewable(sessions, table, attendanceId, reviewerId, k);
    var attendance := table.rows[k];
    ApplyReview(attendance, reviewerId, decision, notes, now);
    reply := Done(attendance);
    assert Reviewable(sessions, table, attendanceId, reviewerId, k);
  }
}
