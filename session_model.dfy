/** A class session: its lifecycle status, attendance window, current presence token,
    settings and the present/absent counters derived from its attendance records. */
module SessionModel {
  import opened Wrappers
  import opened Constants
  import opened AttendanceModel

  /** The settings a session is configured with; an absent property reads as false. */
  datatype Settings = Settings(requireQRScan: bool, requireGeofencing: bool, requireWiFi: bool,
                               requireBeacon: bool, allowLateEntry: bool, lateEntryMinutes: Option<int>)

  /** The settings a session gets when none are stored. */
  const DefaultSettings := Settings(true, true, false, false, false, Some(10))

  /** The settings stored for an empty settings object. */
  const EmptySettings := Settings(false, false, false, false, false, None)

  /** One row of a count grouped by status. */
  datatype StatusCount = StatusCount(status: AttendanceStatus, count: nat)

  class Session {
    const id: string
    const sessionCode: string
    const facultyId: string
    const courseCode: string
    const classroom: string
    var status: SessionStatus
    var attendanceWindowStart: Option<int>
    var attendanceWindowEnd: Option<int>
    var currentQRToken: Option<string>
    var qrGeneratedAt: Option<int>
    var settings: Settings
    var totalStudents: nat
    var presentCount: nat
    var absentCount: nat

    /** A new session with the stored defaults: scheduled, no window, no token, zero counts. */
    constructor (id: string, sessionCode: string, facultyId: string, courseCode: string, classroom: string,
                 settings: Option<Settings>)
      ensures this.id == id && this.sessionCode == sessionCode && this.facultyId == facultyId
      ensures this.courseCode == courseCode && this.classroom == classroom
      ensures status == Scheduled
      ensures attendanceWindowStart.None? && attendanceWindowEnd.None?
      ensures currentQRToken.None? && qrGeneratedAt.None?
      ensures this.settings == settings.GetOr(DefaultSettings)
      ensures totalStudents == 0 && presentCount == 0 && absentCount == 0
    {
      this.id, this.sessionCode, this.facultyId := id, sessionCode, facultyId;
      this.courseCode, this.classroom := courseCode, classroom;
      status := Scheduled;
      attendanceWindowStart, attendanceWindowEnd := None, None;
      currentQRToken, qrGeneratedAt := None, None;
      this.settings := settings.GetOr(DefaultSettings);
      totalStudents, presentCount, absentCount := 0, 0, 0;
    }

    predicate IsActive()
      reads this
    {
      status == Active
    }

    /** Attendance may be marked at `now` while the session is active and `now` lies in its
        window, both ends included. */
    predicate CanMarkAttendance(now: int)
      reads this
      ensures CanMarkAttendance(now) ==> IsActive()
      ensures CanMarkAttendance(now) ==> attendanceWindowStart.Some? && attendanceWindowEnd.Some? &&
                                         attendanceWindowStart.value <= now <= attendanceWindowEnd.value
    {
      status == Active && attendanceWindowStart.Some? && attendanceWindowEnd.Some? &&
      attendanceWindowStart.value <= now && now <= attendanceWindowEnd.value
    }

    /** Sets the two counters to the number of this session's records with those statuses. */
    method UpdateAttendanceCount(table: AttendanceTable)
      modifies this`presentCount, this`absentCount
      ensures presentCount == table.Count(id, Present)
      ensures absentCount == table.Count(id, Absent)
      ensures presentCount + absentCount <= |table.SessionKeys(id)|
    {
      presentCount := table.Count(id, Present);
      absentCount := table.Count(id, Absent);
      CountsBounded(table, id, Present, Absent);
    }
  }

  /** Every session sits under its own id. */
  predicate SessionsKeyed(sessions: map<string, Session>) {
    forall k :: k in sessions ==> sessions[k].id == k
  }

  /** Both window ends are inclusive. */
  lemma WindowInclusive(s: Session, start: int, end: int)
    requires s.status == Active && s.attendanceWindowStart == Some(start) && s.attendanceWindowEnd == Some(end)
    requires start <= end
    ensures s.CanMarkAttendance(start) && s.CanMarkAttendance(end)
    ensures !s.CanMarkAttendance(start - 1) && !s.CanMarkAttendance(end + 1)
  {
  }

  /** The number-valued property named `name` of a list of rows: the list's `length`; an index
      names a row object and any other name nothing, so neither gives a number. */
  function ListProperty(groups: seq<StatusCount>, name: string): (v: Option<nat>)
    ensures v.Some? <==> name == "length"
    ensures v.Some? ==> v.value == |groups|
  {
    if name == "length" then Some(|groups|) else None
  }

  /** The counter update as written reads a property named after the status off the grouped
      count (`stats.present || 0`). A grouped count is a list of rows, and no status is named
      "length", so the lookup always falls back to 0. */
  function CountAsWritten(groups: seq<StatusCount>, status: AttendanceStatus): (n: nat)
    ensures n == 0
  {
    ListProperty(groups, AttendanceStatusName(status)).GetOr(0)
  }

  /** No row before position `i` is for `status`. */
  predicate FirstOf(groups: seq<StatusCount>, status: AttendanceStatus, i: nat) {
    forall j :: 0 <= j < i && j < |groups| ==> groups[j].status != status
  }

  /** The count the update evidently intends: the count of the first row for `status`, 0 when
      none. */
  function CountIntended(groups: seq<StatusCount>, status: AttendanceStatus): (n: nat)
    ensures (forall i :: 0 <= i < |groups| ==> groups[i].status != status) ==> n == 0
    ensures forall i :: 0 <= i < |groups| && groups[i].status == status && FirstOf(groups, status, i) ==>
              n == groups[i].count
  {
    if groups == [] then 0
    else if groups[0].status == status then groups[0].count
    else
      var rest := CountIntended(groups[1..], status);
      assert forall i :: 1 <= i < |groups| ==> groups[i] == groups[1..][i - 1];
      rest
  }

  /** One present record: the grouped count has the row (present, 1), the intended counter is 1,
      and the counter as written is 0. */
  lemma CountAsWrittenMissesPresentRecord()
    ensures CountIntended([StatusCount(Present, 1)], Present) == 1
    ensures CountAsWritten([StatusCount(Present, 1)], Present) == 0
  {
  }
}
