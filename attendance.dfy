/** Attendance in the modular back end (`app/controllers/attendance_controller.py`): the batch
    upsert of `mark_attendance`, the per-student statistics, the daily overall status of a class,
    and the permission and status checks of `update_attendance`. The attendance table is a map
    from the key (student, date, subject, period) to the stored row. */
module Attendance {
  import opened Wrappers
  import opened Text

  /** The statuses a record may carry. */
  predicate IsValidStatus(s: string) {
    s == "present" || s == "absent" || s == "late" || s == "excused"
  }

  const InvalidStatus: string := "Invalid status. Must be one of: present, absent, late, excused"

  /** Present and late both count as attending. */
  predicate CountsAsPresent(status: string) {
    status == "present" || status == "late"
  }

  datatype Key = Key(studentId: int, date: string, subjectId: Option<int>, period: Option<string>)

  datatype Row = Row(status: string, checkIn: Option<string>, checkOut: Option<string>, notes: Option<string>,
                     markedBy: int)

  type Table = map<Key, Row>

  /** One element of `attendance_records`; absent fields are `None`. */
  datatype RecordInput = RecordInput(studentId: Option<int>, date: Option<string>, status: Option<string>,
                                     subjectId: Option<int>, period: Option<string>, checkIn: Option<string>,
                                     checkOut: Option<string>, notes: Option<string>)

  /** Absent, or blank after stripping: by `Text.TrimEmptyIff`, nothing but whitespace. */
  predicate Blank(s: Option<string>) { s.None? || forall i :: 0 <= i < |s.value| ==> IsSpace(s.value[i]) }

  /** The required fields of a record that are missing, in the order they are checked. */
  function RecordMissing(r: RecordInput): (m: seq<string>)
    ensures m == [] <==> r.studentId.Some? && !Blank(r.date) && !Blank(r.status)
  {
    (if r.studentId.None? then ["student_id"] else []) + (if Blank(r.date) then ["date"] else []) +
    (if Blank(r.status) then ["status"] else [])
  }

  /** A record the batch accepts: every required field given and a known status. */
  predicate Acceptable(r: RecordInput) {
    r.studentId.Some? && r.date.Some? && r.status.Some? && !Blank(r.date) && !Blank(r.status) &&
    IsValidStatus(r.status.value)
  }

  /** The message of a record with missing fields, wrapping that of `validate_required_fields`. */
  function MissingMessage(missing: seq<string>): string {
    "Invalid attendance record: Missing required fields: " + Join(missing, ", ")
  }

  /** What rejects one record: a missing field, then an unknown status. */
  function RecordError(r: RecordInput): (e: Option<ApiError>)
    ensures e.None? <==> Acceptable(r)
    ensures e.Some? ==> e.value.code == 400
  {
    if r.studentId.None? || Blank(r.date) || Blank(r.status) then
      Some(ApiError(400, MissingMessage(RecordMissing(r))))
    else if !IsValidStatus(r.status.value) then
      Some(ApiError(400, InvalidStatus))
    else None
  }

  function KeyOf(r: RecordInput): Key
    requires r.studentId.Some? && r.date.Some?
  {
    Key(r.studentId.value, r.date.value, r.subjectId, r.period)
  }

  function RowOf(r: RecordInput, caller: int): Row
    requires r.status.Some?
  {
    Row(r.status.value, r.checkIn, r.checkOut, r.notes, caller)
  }

  /** The outcome of a batch: the table after it and the numbers created and updated. */
  datatype Batch = Batch(table: Table, created: nat, updated: nat)

  /** The batch from the current position on: each valid record updates the row under its key or
      creates one; the first invalid record rejects the whole request. */
  function MarkFrom(t: Table, recs: seq<RecordInput>, created: nat, updated: nat, caller: int)
    : (r: Result<Batch, ApiError>)
    ensures r.Err? ==> r.error.code == 400
    ensures r.Ok? ==> created <= r.value.created && updated <= r.value.updated && t.Keys <= r.value.table.Keys
    decreases |recs|
  {
    if recs == [] then Ok(Batch(t, created, updated))
    else if !Acceptable(recs[0]) then Err(RecordError(recs[0]).value)
    else
      var k := KeyOf(recs[0]);
      MarkFrom(t[k := RowOf(recs[0], caller)], recs[1..],
               if k in t then created else created + 1, if k in t then updated + 1 else updated, caller)
  }

  /** `mark_attendance`: the loop over the records with its two lists, kept here as counts. */
  method MarkAttendance(t: Table, recs: Option<seq<RecordInput>>, caller: int) returns (r: Result<Batch, ApiError>)
    ensures recs.None? ==> r == Err(ApiError(400, "Missing required fields: attendance_records"))
    ensures recs.Some? ==> r == MarkFrom(t, recs.value, 0, 0, caller)
  {
    if recs.None? {
      return Err(ApiError(400, "Missing required fields: attendance_records"));
    }
    var records := recs.value;
    var table := t;
    var created: nat := 0;
    var updated: nat := 0;
    var i := 0;
    while i < |records|
      invariant 0 <= i <= |records|
      invariant MarkFrom(table, records[i..], created, updated, caller) == MarkFrom(t, records, 0, 0, caller)
    {
      MarkFromStep(table, records, i, created, updated, caller);
      if !Acceptable(records[i]) {
        return Err(RecordError(records[i]).value);
      }
      var k := KeyOf(records[i]);
      if k in table {
        updated := updated + 1;
      } else {
        created := created + 1;
      }
      table := table[k := RowOf(records[i], caller)];
      i := i + 1;
    }
    assert records[i..] == [];
    r := Ok(Batch(table, created, updated));
  }

  /** One step of the batch, at position `i`. */
  lemma MarkFromStep(t: Table, recs: seq<RecordInput>, i: nat, c: nat, u: nat, caller: int)
    requires i < |recs|
    ensures !Acceptable(recs[i]) ==> MarkFrom(t, recs[i..], c, u, caller) == Err(RecordError(recs[i]).value)
    ensures Acceptable(recs[i]) ==>
              var k := KeyOf(recs[i]);
              MarkFrom(t, recs[i..], c, u, caller) ==
              MarkFrom(t[k := RowOf(recs[i], caller)], recs[i + 1..], if k in t then c else c + 1,
                       if k in t then u + 1 else u, caller)
  {
    assert recs[i..][0] == recs[i] && recs[i..][1..] == recs[i + 1..];
  }

  /** A successful batch processes every record: `total_processed` is the number of records sent. */
  lemma {:induction false} BatchCountsEveryRecord(t: Table, recs: seq<RecordInput>, c: nat, u: nat, caller: int)
    requires MarkFrom(t, recs, c, u, caller).Ok?
    ensures var b := MarkFrom(t, recs, c, u, caller).value;
            b.created + b.updated == c + u + |recs|
    decreases |recs|
  {
    if recs != [] {
      var k := KeyOf(recs[0]);
      BatchCountsEveryRecord(t[k := RowOf(recs[0], caller)], recs[1..],
                             if k in t then c else c + 1, if k in t then u + 1 else u, caller);
    }
  }

  /** Each creation adds a key the table did not have: the number created is the growth of the table,
      so no key is ever stored twice. */
  lemma {:induction false} CreatedIsNewKeys(t: Table, recs: seq<RecordInput>, c: nat, u: nat, caller: int)
    requires MarkFrom(t, recs, c, u, caller).Ok?
    ensures var b := MarkFrom(t, recs, c, u, caller).value;
            b.created - c == |b.table| - |t| && t.Keys <= b.table.Keys
    decreases |recs|
  {
    if recs != [] {
      var k := KeyOf(recs[0]);
      var t' := t[k := RowOf(recs[0], caller)];
      if k !in t {
        assert |t'| == |t| + 1;
      } else {
        assert t'.Keys == t.Keys;
      }
      CreatedIsNewKeys(t', recs[1..], if k in t then c else c + 1, if k in t then u + 1 else u, caller);
    }
  }

  /** Rows whose key no record of the batch carries are left as they were. */
  lemma {:induction false} UntouchedRowsKept(t: Table, recs: seq<RecordInput>, c: nat, u: nat, caller: int, k: Key)
    requires MarkFrom(t, recs, c, u, caller).Ok? && k in t
    requires forall j :: 0 <= j < |recs| && recs[j].studentId.Some? && recs[j].date.Some? ==> KeyOf(recs[j]) != k
    ensures var b := MarkFrom(t, recs, c, u, caller).value;
            k in b.table && b.table[k] == t[k]
    decreases |recs|
  {
    if recs != [] {
      var k0 := KeyOf(recs[0]);
      assert forall j :: 0 <= j < |recs| - 1 ==> recs[1..][j] == recs[j + 1];
      UntouchedRowsKept(t[k0 := RowOf(recs[0], caller)], recs[1..], if k0 in t then c else c + 1,
                        if k0 in t then u + 1 else u, caller, k);
    }
  }

  /** The last record of a batch is what its key holds afterwards, marked by the caller. */
  lemma {:induction false} LastRecordWins(t: Table, recs: seq<RecordInput>, c: nat, u: nat, caller: int)
    requires recs != [] && MarkFrom(t, recs, c, u, caller).Ok?
    ensures var last := recs[|recs| - 1];
            var b := MarkFrom(t, recs, c, u, caller).value;
            last.studentId.Some? && last.date.Some? && last.status.Some? &&
            KeyOf(last) in b.table && b.table[KeyOf(last)] == RowOf(last, caller)
    decreases |recs|
  {
    var k0 := KeyOf(recs[0]);
    var t' := t[k0 := RowOf(recs[0], caller)];
    if |recs| > 1 {
      assert recs[1..][|recs[1..]| - 1] == recs[|recs| - 1];
      LastRecordWins(t', recs[1..], if k0 in t then c else c + 1, if k0 in t then u + 1 else u, caller);
    } else {
      assert recs[1..] == [];
    }
  }

  /** One bad record rejects the batch, however many good ones precede it. */
  lemma {:induction false} BadRecordRejects(t: Table, recs: seq<RecordInput>, c: nat, u: nat, caller: int, i: nat)
    requires i < |recs| && !Acceptable(recs[i])
    ensures MarkFrom(t, recs, c, u, caller).Err?
    decreases |recs|
  {
    MarkFromStep(t, recs, 0, c, u, caller);
    assert recs[0..] == recs;
    if i > 0 && Acceptable(recs[0]) {
      var k0 := KeyOf(recs[0]);
      assert recs[1..][i - 1] == recs[i];
      BadRecordRejects(t[k0 := RowOf(recs[0], caller)], recs[1..], if k0 in t then c else c + 1,
                       if k0 in t then u + 1 else u, caller, i - 1);
    }
  }

  function CountWhere(statuses: seq<string>, s: string): (n: nat)
    ensures n <= |statuses|
  {
    if statuses == [] then 0 else (if statuses[0] == s then 1 else 0) + CountWhere(statuses[1..], s)
  }

  function CountPresent(statuses: seq<string>): (n: nat)
    ensures n <= |statuses|
  {
    if statuses == [] then 0 else (if CountsAsPresent(statuses[0]) then 1 else 0) + CountPresent(statuses[1..])
  }

  datatype StudentStats = StudentStats(totalDays: nat, presentDays: nat, absentDays: nat, lateDays: nat,
                                       excusedDays: nat, percentage: real)

  /** `round(part / total * 100, 2)` without the rounding; nothing attended of nothing is 0. */
  function Percentage(part: nat, total: nat): (p: real)
    ensures total == 0 ==> p == 0.0
    ensures total > 0 ==> p * total as real == part as real * 100.0
  {
    if total > 0 then part as real * 100.0 / total as real else 0.0
  }

  /** A share of the days is between 0 and 100 percent. */
  lemma PercentageBounds(part: nat, total: nat)
    requires part <= total
    ensures 0.0 <= Percentage(part, total) <= 100.0
  {
    if total > 0 {
      var p := Percentage(part, total);
      assert p * total as real <= 100.0 * total as real;
    }
  }

  /** The statistics of `get_student_attendance`. */
  function StudentAttendanceStats(statuses: seq<string>): (s: StudentStats)
    ensures s.totalDays == |statuses| && s.presentDays == CountPresent(statuses)
    ensures s.lateDays == CountWhere(statuses, "late") && s.absentDays == CountWhere(statuses, "absent")
    ensures s.excusedDays == CountWhere(statuses, "excused")
    ensures s.percentage == Percentage(s.presentDays, s.totalDays)
  {
    var total := |statuses|;
    var present := CountPresent(statuses);
    StudentStats(total, present, CountWhere(statuses, "absent"), CountWhere(statuses, "late"),
                 CountWhere(statuses, "excused"), Percentage(present, total))
  }

  /** With valid statuses every day is present (or late), absent or excused, and late days are among
      the present ones. */
  lemma {:induction false} CountsPartitionDays(statuses: seq<string>)
    requires forall i :: 0 <= i < |statuses| ==> IsValidStatus(statuses[i])
    ensures CountPresent(statuses) + CountWhere(statuses, "absent") + CountWhere(statuses, "excused") == |statuses|
    ensures CountWhere(statuses, "late") <= CountPresent(statuses)
  {
    if statuses != [] {
      assert forall i :: 0 <= i < |statuses| - 1 ==> statuses[1..][i] == statuses[i + 1];
      CountsPartitionDays(statuses[1..]);
    }
  }

  /** The student's statistics split the days and give a percentage between 0 and 100. */
  lemma StatsPartitionDays(statuses: seq<string>)
    requires forall i :: 0 <= i < |statuses| ==> IsValidStatus(statuses[i])
    ensures var s := StudentAttendanceStats(statuses);
            s.presentDays + s.absentDays + s.excusedDays == s.totalDays && s.lateDays <= s.presentDays &&
            0.0 <= s.percentage <= 100.0
  {
    CountsPartitionDays(statuses);
    PercentageBounds(CountPresent(statuses), |statuses|);
  }

  /** The overall status of a student for one day: present over late over excused, else absent. */
  function OverallStatus(statuses: seq<string>): (s: string)
    ensures s == "present" <==> "present" in statuses
    ensures s == "late" <==> "present" !in statuses && "late" in statuses
    ensures s == "excused" <==> "present" !in statuses && "late" !in statuses && "excused" in statuses
    ensures s == "absent" <==> "present" !in statuses && "late" !in statuses && "excused" !in statuses
  {
    if "present" in statuses then "present"
    else if "late" in statuses then "late"
    else if "excused" in statuses then "excused"
    else "absent"
  }

  /** A student with no record that day counts as absent. */
  lemma NoRecordIsAbsent()
    ensures OverallStatus([]) == "absent"
  {
  }

  datatype ClassStats = ClassStats(totalStudents: nat, presentCount: nat, absentCount: nat, attendanceRate: real)

  function CountAttending(daily: seq<seq<string>>): (n: nat)
    ensures n <= |daily|
  {
    if daily == [] then 0 else (if CountsAsPresent(OverallStatus(daily[0])) then 1 else 0) + CountAttending(daily[1..])
  }

  /** The class statistics of `get_class_attendance`: one list of that day's statuses per active
      student. */
  function ClassAttendanceStats(daily: seq<seq<string>>): (s: ClassStats)
    ensures s.totalStudents == |daily| && s.presentCount == CountAttending(daily)
    ensures s.presentCount + s.absentCount == s.totalStudents
    ensures s.attendanceRate == Percentage(s.presentCount, s.totalStudents)
    ensures 0.0 <= s.attendanceRate <= 100.0
  {
    var present := CountAttending(daily);
    PercentageBounds(present, |daily|);
    ClassStats(|daily|, present, |daily| - present, Percentage(present, |daily|))
  }

  /** Who may change a record in `update_attendance`: a teacher needs a profile, and must have
      marked the record or teach its subject; the admin always may. */
  function UpdatePermission(role: string, teacherSubjects: Option<set<int>>, row: Row, subjectId: Option<int>,
                            caller: int): (e: Option<ApiError>)
    ensures role != "teacher" ==> e.None?
    ensures role == "teacher" && teacherSubjects.None? ==> e == Some(ApiError(404, "Teacher profile not found"))
    ensures role == "teacher" && teacherSubjects.Some? ==>
              (e.None? <==> row.markedBy == caller || (subjectId.Some? && subjectId.value in teacherSubjects.value))
  {
    if role == "teacher" then
      if teacherSubjects.None? then Some(ApiError(404, "Teacher profile not found"))
      else if row.markedBy != caller && !(subjectId.Some? && subjectId.value in teacherSubjects.value) then
        Some(ApiError(403, "Access denied"))
      else None
    else None
  }

  /** The field changes of `update_attendance`, after the permission check: an unknown status is
      refused, each field given is set, and the caller becomes the marker. */
  function UpdateRow(row: Row, status: Option<string>, checkIn: Option<Option<string>>,
                     checkOut: Option<Option<string>>, notes: Option<Option<string>>, caller: int)
    : (r: Result<Row, ApiError>)
    ensures r.Err? <==> status.Some? && !IsValidStatus(status.value)
    ensures r.Err? ==> r.error == ApiError(400, InvalidStatus)
    ensures r.Ok? ==> r.value.markedBy == caller && r.value.status == status.GetOr(row.status) &&
                      r.value.notes == notes.GetOr(row.notes) && r.value.checkIn == checkIn.GetOr(row.checkIn) &&
                      r.value.checkOut == checkOut.GetOr(row.checkOut)
  {
    if status.Some? && !IsValidStatus(status.value) then
      Err(ApiError(400, InvalidStatus))
    else Ok(row.(status := status.GetOr(row.status), checkIn := checkIn.GetOr(row.checkIn),
                 checkOut := checkOut.GetOr(row.checkOut), notes := notes.GetOr(row.notes), markedBy := caller))
  }

  /** After a teacher's update the record is theirs: they may update it again. */
  lemma UpdaterMayUpdateAgain(row: Row, subjectId: Option<int>, subjects: set<int>, status: Option<string>,
                              checkIn: Option<Option<string>>, checkOut: Option<Option<string>>,
                              notes: Option<Option<string>>, caller: int)
    requires UpdateRow(row, status, checkIn, checkOut, notes, caller).Ok?
    ensures UpdatePermission("teacher", Some(subjects), UpdateRow(row, status, checkIn, checkOut, notes, caller).value,
                             subjectId, caller).None?
  {
  }
}
