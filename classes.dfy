/** Class rosters of the modular back end (`app/controllers/class_controller.py`, with the
    `current_students_count` property of `app/models/class_model.py`): creating a class with a
    unique (name, grade level, academic year), changing its capacity, soft deletion, and adding a
    student to or removing one from a class. The `classes` and `students` tables are maps from the
    row id to the columns the rules read or write. */
module Classes {
  import opened Wrappers
  import opened Text
  import Validators

  /** The columns of a class. */
  datatype ClassRow = ClassRow(name: string, gradeLevel: string, academicYear: string,
                               description: Option<string>, maxStudents: int, isActive: bool)

  /** The columns of a student that rosters use. */
  datatype StudentRow = StudentRow(classId: Option<int>, isActive: bool)

  type ClassTable = map<int, ClassRow>
  type StudentTable = map<int, StudentRow>

  /** The capacity a new class gets when the request gives none. */
  const DefaultMaxStudents: int := 30

  const DuplicateClassError: string := "Class with this name, grade level, and academic year already exists"
  const ActiveStudentsError: string := "Cannot delete class with active students. Please reassign students first."
  const FullClassError: string := "Class has reached maximum capacity"
  const AlreadyAssignedError: string := "Student is already assigned to a class"
  const NotInClassError: string := "Student is not in this class"
  /** What `str()` of the exception raised by `get_or_404` begins with. */
  const NotFound: string := "404 Not Found"
  const ClassRequired: seq<string> := ["name", "grade_level", "academic_year"]

  /** The active students of class `c`, whose number is `current_students_count`. */
  function Enrolled(students: StudentTable, c: int): set<int> {
    set s | s in students && students[s].isActive && students[s].classId == Some(c)
  }

  function Count(students: StudentTable, c: int): nat {
    |Enrolled(students, c)|
  }

  /** No class holds more active students than its `max_students`. */
  predicate WithinCapacity(classes: ClassTable, students: StudentTable) {
    forall c :: c in classes ==> Count(students, c) <= classes[c].maxStudents
  }

  /** Every class a student refers to exists (the foreign key of `students.class_id`). */
  predicate Linked(classes: ClassTable, students: StudentTable) {
    forall s :: s in students && students[s].classId.Some? ==> students[s].classId.value in classes
  }

  predicate SameIdentity(a: ClassRow, b: ClassRow) {
    a.name == b.name && a.gradeLevel == b.gradeLevel && a.academicYear == b.academicYear
  }

  /** No two classes share a name, grade level and academic year. */
  predicate Unique(classes: ClassTable) {
    forall a, b :: a in classes && b in classes && SameIdentity(classes[a], classes[b]) ==> a == b
  }

  /** Python truthiness of `student.class_id`: an id of 0 counts as no class. */
  predicate HasClass(s: StudentRow) {
    s.classId.Some? && s.classId.value != 0
  }

  function FieldText(data: map<string, Validators.FieldValue>, field: string): string {
    if field in data && data[field].Present? then data[field].text else ""
  }

  /** The validated request's class, before it is stored. */
  function NewRow(data: map<string, Validators.FieldValue>, description: Option<string>,
                  maxStudents: Option<int>): ClassRow
  {
    ClassRow(FieldText(data, "name"), FieldText(data, "grade_level"), FieldText(data, "academic_year"), description,
             maxStudents.GetOr(DefaultMaxStudents), true)
  }

  predicate Clashes(classes: ClassTable, row: ClassRow) {
    exists k :: k in classes && SameIdentity(classes[k], row)
  }

  /** `create_class`: the required fields, then the uniqueness of the identity among all classes,
      active or not; the database gives the new row the fresh id `newId`. */
  function Create(classes: ClassTable, data: map<string, Validators.FieldValue>, description: Option<string>,
                  maxStudents: Option<int>, newId: int): (r: Result<ClassTable, ApiError>)
    ensures r.Ok? <==> Validators.MissingFields(data, ClassRequired) == [] &&
                       !Clashes(classes, NewRow(data, description, maxStudents))
    ensures r.Ok? ==> r.value == classes[newId := NewRow(data, description, maxStudents)]
    ensures Validators.MissingFields(data, ClassRequired) == [] && r.Err? ==> r.error == ApiError(409, DuplicateClassError)
  {
    var missing := Validators.MissingFields(data, ClassRequired);
    if missing != [] then Err(ApiError(400, Validators.MissingPrefix + Join(missing, ", ")))
    else if Clashes(classes, NewRow(data, description, maxStudents)) then Err(ApiError(409, DuplicateClassError))
    else Ok(classes[newId := NewRow(data, description, maxStudents)])
  }

  /** `update_class`: the given fields replace the stored ones, but the capacity may not drop below
      the current number of active students. */
  function Update(classes: ClassTable, students: StudentTable, id: int, name: Option<string>, gradeLevel: Option<string>,
                  academicYear: Option<string>, description: Option<Option<string>>, maxStudents: Option<int>)
    : (r: Result<ClassTable, ApiError>)
    ensures id !in classes ==> r == Err(ApiError(500, "Failed to update class: " + NotFound))
    ensures r.Ok? <==> id in classes && (maxStudents.Some? ==> maxStudents.value >= Count(students, id))
    ensures r.Ok? ==> r.value.Keys == classes.Keys && forall k :: k in classes && k != id ==> r.value[k] == classes[k]
    ensures r.Ok? ==> r.value[id].maxStudents == maxStudents.GetOr(classes[id].maxStudents) &&
                      r.value[id].isActive == classes[id].isActive
    ensures r.Ok? ==> r.value[id].name == name.GetOr(classes[id].name) &&
                      r.value[id].gradeLevel == gradeLevel.GetOr(classes[id].gradeLevel) &&
                      r.value[id].academicYear == academicYear.GetOr(classes[id].academicYear) &&
                      r.value[id].description == description.GetOr(classes[id].description)
  {
    if id !in classes then Err(ApiError(500, "Failed to update class: " + NotFound))
    else
      var row := classes[id];
      if maxStudents.Some? && maxStudents.value < Count(students, id) then
        Err(ApiError(400, "Cannot reduce max students below current count (" + NatToDec(Count(students, id)) + ")"))
      else
        Ok(classes[id := row.(name := name.GetOr(row.name), gradeLevel := gradeLevel.GetOr(row.gradeLevel),
                              academicYear := academicYear.GetOr(row.academicYear),
                              description := description.GetOr(row.description),
                              maxStudents := maxStudents.GetOr(row.maxStudents))])
  }

  /** `delete_class`: only a class without active students is deactivated; the row stays. */
  function Delete(classes: ClassTable, students: StudentTable, id: int): (r: Result<ClassTable, ApiError>)
    ensures r.Ok? <==> id in classes && Count(students, id) == 0
    ensures id in classes && Count(students, id) > 0 ==> r == Err(ApiError(400, ActiveStudentsError))
    ensures r.Ok? ==> r.value == classes[id := classes[id].(isActive := false)]
  {
    if id !in classes then Err(ApiError(500, "Failed to delete class: " + NotFound))
    else if Count(students, id) > 0 then Err(ApiError(400, ActiveStudentsError))
    else Ok(classes[id := classes[id].(isActive := false)])
  }

  const AddFailure: string := "Failed to add student to class: " + NotFound
  const RemoveFailure: string := "Failed to remove student from class: " + NotFound

  /** `add_student_to_class`: the class and the student must exist, the class must have a free
      place, and the student must not be in a class yet. Neither the class nor the student is
      required to be active. */
  function Add(classes: ClassTable, students: StudentTable, classId: int, studentId: Option<int>)
    : (r: Result<StudentTable, ApiError>)
    ensures r.Ok? <==> classId in classes && studentId.Some? && studentId.value in students &&
                       Count(students, classId) < classes[classId].maxStudents && !HasClass(students[studentId.value])
    ensures r.Ok? ==> r.value == students[studentId.value := students[studentId.value].(classId := Some(classId))]
    ensures (classId in classes && studentId.Some? && studentId.value in students &&
             Count(students, classId) >= classes[classId].maxStudents) ==> r == Err(ApiError(400, FullClassError))
  {
    if classId !in classes then Err(ApiError(500, AddFailure))
    else if studentId.None? then Err(ApiError(400, "Missing required fields: student_id"))
    else if studentId.value !in students then Err(ApiError(500, AddFailure))
    else if Count(students, classId) >= classes[classId].maxStudents then Err(ApiError(400, FullClassError))
    else if HasClass(students[studentId.value]) then Err(ApiError(409, AlreadyAssignedError))
    else Ok(students[studentId.value := students[studentId.value].(classId := Some(classId))])
  }

  /** `remove_student_from_class`: only a student of this class is detached from it. */
  function Remove(classes: ClassTable, students: StudentTable, classId: int, studentId: Option<int>)
    : (r: Result<StudentTable, ApiError>)
    ensures r.Ok? <==> classId in classes && studentId.Some? && studentId.value in students &&
                       students[studentId.value].classId == Some(classId)
    ensures r.Ok? ==> r.value == students[studentId.value := students[studentId.value].(classId := None)]
  {
    if classId !in classes then Err(ApiError(500, RemoveFailure))
    else if studentId.None? then Err(ApiError(400, "Missing required fields: student_id"))
    else if studentId.value !in students then Err(ApiError(500, RemoveFailure))
    else if students[studentId.value].classId != Some(classId) then Err(ApiError(400, NotInClassError))
    else Ok(students[studentId.value := students[studentId.value].(classId := None)])
  }

  /** Moving one student to class `c` adds them to its roster when active and takes them out of
      every other roster. */
  lemma MoveEnrolled(students: StudentTable, s: int, c: int, d: int)
    requires s in students
    ensures var moved := students[s := students[s].(classId := Some(c))];
            Enrolled(moved, d) == if d == c && students[s].isActive then Enrolled(students, d) + {s}
                                  else Enrolled(students, d) - {s}
  {
  }

  /** Detaching one student takes them out of every roster. */
  lemma DetachEnrolled(students: StudentTable, s: int, d: int)
    requires s in students
    ensures Enrolled(students[s := students[s].(classId := None)], d) == Enrolled(students, d) - {s}
  {
  }

  /** A class created by the database has no students yet. */
  lemma {:induction false} CreateStartsEmpty(classes: ClassTable, students: StudentTable, newId: int)
    requires Linked(classes, students) && newId !in classes
    ensures Count(students, newId) == 0
  {
    assert forall s :: s !in Enrolled(students, newId);
    assert Enrolled(students, newId) == {};
  }

  /** Creation keeps identities unique. */
  lemma CreateKeepsUnique(classes: ClassTable, data: map<string, Validators.FieldValue>, description: Option<string>,
                          maxStudents: Option<int>, newId: int)
    requires Unique(classes) && newId !in classes
    requires Create(classes, data, description, maxStudents, newId).Ok?
    ensures Unique(Create(classes, data, description, maxStudents, newId).value)
  {
  }

  /** Creation keeps every class within its capacity exactly when the new capacity is not
      negative: `max_students` is stored without a check. */
  lemma {:induction false} CreateCapacity(classes: ClassTable, students: StudentTable,
                                          data: map<string, Validators.FieldValue>, description: Option<string>,
                                          maxStudents: Option<int>, newId: int)
    requires WithinCapacity(classes, students) && Linked(classes, students) && newId !in classes
    requires Create(classes, data, description, maxStudents, newId).Ok?
    ensures var after := Create(classes, data, description, maxStudents, newId).value;
            WithinCapacity(after, students) <==> maxStudents.GetOr(DefaultMaxStudents) >= 0
  {
    CreateStartsEmpty(classes, students, newId);
  }

  /** Creation with the default capacity always keeps every class within its capacity. */
  lemma {:induction false} DefaultCapacityIsSafe(classes: ClassTable, students: StudentTable,
                                                 data: map<string, Validators.FieldValue>, description: Option<string>,
                                                 newId: int)
    requires WithinCapacity(classes, students) && Linked(classes, students) && newId !in classes
    requires Create(classes, data, description, None, newId).Ok?
    ensures WithinCapacity(Create(classes, data, description, None, newId).value, students)
  {
    CreateCapacity(classes, students, data, description, None, newId);
  }

  /** An accepted update keeps every class within its capacity. */
  lemma UpdateKeepsCapacity(classes: ClassTable, students: StudentTable, id: int, name: Option<string>,
                            gradeLevel: Option<string>, academicYear: Option<string>,
                            description: Option<Option<string>>, maxStudents: Option<int>)
    requires WithinCapacity(classes, students)
    requires Update(classes, students, id, name, gradeLevel, academicYear, description, maxStudents).Ok?
    ensures WithinCapacity(Update(classes, students, id, name, gradeLevel, academicYear, description, maxStudents).value,
                           students)
  {
  }

  /** Renaming is not checked against the other classes, so an update can give two classes the
      same identity. */
  lemma RenameCanDuplicate()
    ensures var classes := map[1 := ClassRow("A", "5", "2024-2025", None, 30, true),
                               2 := ClassRow("B", "5", "2024-2025", None, 30, true)];
            Unique(classes) &&
            Update(classes, map[], 2, Some("A"), None, None, None, None).Ok? &&
            !Unique(Update(classes, map[], 2, Some("A"), None, None, None, None).value)
  {
    var classes := map[1 := ClassRow("A", "5", "2024-2025", None, 30, true),
                       2 := ClassRow("B", "5", "2024-2025", None, 30, true)];
    assert Enrolled(map[], 2) == {};
    var after := Update(classes, map[], 2, Some("A"), None, None, None, None).value;
    assert after[1] == classes[1] && SameIdentity(after[1], after[2]);
  }

  /** A deleted class keeps its row and its students' count of zero, so the capacity rule still
      holds, and deleting it again changes nothing. */
  lemma DeleteIdempotent(classes: ClassTable, students: StudentTable, id: int)
    requires Delete(classes, students, id).Ok?
    ensures var after := Delete(classes, students, id).value;
            !after[id].isActive && Delete(after, students, id) == Ok(after)
  {
    var after := Delete(classes, students, id).value;
    assert after[id := after[id].(isActive := false)] == after;
  }

  /** An accepted add keeps every class within its capacity. */
  lemma {:induction false} AddKeepsCapacity(classes: ClassTable, students: StudentTable, classId: int, studentId: Option<int>)
    requires WithinCapacity(classes, students)
    requires Add(classes, students, classId, studentId).Ok?
    ensures WithinCapacity(classes, Add(classes, students, classId, studentId).value)
  {
    var s := studentId.value;
    var after := Add(classes, students, classId, studentId).value;
    forall d | d in classes
      ensures Count(after, d) <= classes[d].maxStudents
    {
      MoveEnrolled(students, s, classId, d);
    }
  }

  /** Adding an active student who had no class raises the class's count by exactly one. */
  lemma {:induction false} AddCountsOne(classes: ClassTable, students: StudentTable, classId: int, studentId: int)
    requires Add(classes, students, classId, Some(studentId)).Ok?
    requires students[studentId].isActive && students[studentId].classId.None?
    ensures Count(Add(classes, students, classId, Some(studentId)).value, classId) == Count(students, classId) + 1
  {
    MoveEnrolled(students, studentId, classId, classId);
    assert studentId !in Enrolled(students, classId);
  }

  /** Removing a student a class just received gives back the original table. */
  lemma AddThenRemove(classes: ClassTable, students: StudentTable, classId: int, studentId: int)
    requires Add(classes, students, classId, Some(studentId)).Ok?
    requires students[studentId].classId.None?
    ensures var added := Add(classes, students, classId, Some(studentId)).value;
            Remove(classes, added, classId, Some(studentId)) == Ok(students)
  {
    var added := Add(classes, students, classId, Some(studentId)).value;
    assert added[studentId := added[studentId].(classId := None)] == students;
  }

  /** An accepted removal only lowers counts, so it keeps every class within its capacity. */
  lemma {:induction false} RemoveKeepsCapacity(classes: ClassTable, students: StudentTable, classId: int, studentId: Option<int>)
    requires WithinCapacity(classes, students)
    requires Remove(classes, students, classId, studentId).Ok?
    ensures WithinCapacity(classes, Remove(classes, students, classId, studentId).value)
  {
    var after := Remove(classes, students, classId, studentId).value;
    forall d | d in classes
      ensures Count(after, d) <= classes[d].maxStudents
    {
      DetachEnrolled(students, studentId.value, d);
    }
  }

  /** The two tables the class handlers change. */
  class School {
    var classes: ClassTable
    var students: StudentTable

    constructor (classes0: ClassTable, students0: StudentTable)
      ensures classes == classes0 && students == students0
    {
      classes := classes0;
      students := students0;
    }

    method CreateClass(data: map<string, Validators.FieldValue>, description: Option<string>,
                       maxStudents: Option<int>, newId: int) returns (r: Result<int, ApiError>)
      modifies this
      ensures var o := Create(old(classes), data, description, maxStudents, newId);
              (o.Ok? ==> classes == o.value && r == Ok(newId)) && (o.Err? ==> classes == old(classes) && r == Err(o.error))
      ensures students == old(students)
    {
      var missing := Validators.MissingFields(data, ClassRequired);
      if missing != [] {
        return Err(ApiError(400, Validators.MissingPrefix + Join(missing, ", ")));
      }
      var row := NewRow(data, description, maxStudents);
      if Clashes(classes, row) {
        return Err(ApiError(409, DuplicateClassError));
      }
      classes := classes[newId := row];
      r := Ok(newId);
    }

    method UpdateClass(id: int, name: Option<string>, gradeLevel: Option<string>, academicYear: Option<string>,
                       description: Option<Option<string>>, maxStudents: Option<int>) returns (r: Result<ClassRow, ApiError>)
      modifies this
      ensures var o := Update(old(classes), old(students), id, name, gradeLevel, academicYear, description, maxStudents);
              (o.Ok? ==> classes == o.value && r == Ok(classes[id])) && (o.Err? ==> classes == old(classes) && r == Err(o.error))
      ensures students == old(students)
    {
      if id !in classes {
        return Err(ApiError(500, "Failed to update class: " + NotFound));
      }
      var row := classes[id];
      row := row.(name := name.GetOr(row.name), gradeLevel := gradeLevel.GetOr(row.gradeLevel),
                  academicYear := academicYear.GetOr(row.academicYear), description := description.GetOr(row.description));
      if maxStudents.Some? {
        var current := Count(students, id);
        if maxStudents.value < current {
          return Err(ApiError(400, "Cannot reduce max students below current count (" + NatToDec(current) + ")"));
        }
        row := row.(maxStudents := maxStudents.value);
      }
      classes := classes[id := row];
      r := Ok(row);
    }

    method DeleteClass(id: int) returns (r: Result<(), ApiError>)
      modifies this
      ensures var o := Delete(old(classes), old(students), id);
              (o.Ok? ==> classes == o.value && r == Ok(())) && (o.Err? ==> classes == old(classes) && r == Err(o.error))
      ensures students == old(students)
    {
      if id !in classes {
        return Err(ApiError(500, "Failed to delete class: " + NotFound));
      }
      if Count(students, id) > 0 {
        return Err(ApiError(400, ActiveStudentsError));
      }
      classes := classes[id := classes[id].(isActive := false)];
      r := Ok(());
    }

    method AddStudent(classId: int, studentId: Option<int>) returns (r: Result<(), ApiError>)
      modifies this
      ensures var o := Add(old(classes), old(students), classId, studentId);
              (o.Ok? ==> students == o.value && r == Ok(())) && (o.Err? ==> students == old(students) && r == Err(o.error))
      ensures classes == old(classes)
    {
      if classId !in classes {
        return Err(ApiError(500, AddFailure));
      }
      if studentId.None? {
        return Err(ApiError(400, "Missing required fields: student_id"));
      }
      var s := studentId.value;
      if s !in students {
        return Err(ApiError(500, AddFailure));
      }
      if Count(students, classId) >= classes[classId].maxStudents {
        return Err(ApiError(400, FullClassError));
      }
      if HasClass(students[s]) {
        return Err(ApiError(409, AlreadyAssignedError));
      }
      students := students[s := students[s].(classId := Some(classId))];
      r := Ok(());
    }

    method RemoveStudent(classId: int, studentId: Option<int>) returns (r: Result<(), ApiError>)
      modifies this
      ensures var o := Remove(old(classes), old(students), classId, studentId);
              (o.Ok? ==> students == o.value && r == Ok(())) && (o.Err? ==> students == old(students) && r == Err(o.error))
      ensures classes == old(classes)
    {
      if classId !in classes {
        return Err(ApiError(500, RemoveFailure));
      }
      if studentId.None? {
        return Err(ApiError(400, "Missing required fields: student_id"));
      }
      var s := studentId.value;
      if s !in students {
        return Err(ApiError(500, RemoveFailure));
      }
      if students[s].classId != Some(classId) {
        return Err(ApiError(400, NotInClassError));
      }
      students := students[s := students[s].(classId := None)];
      r := Ok(());
    }
  }
}
