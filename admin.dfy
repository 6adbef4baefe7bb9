/** The administrator routes of the modular back end (`app/controllers/admin_controller.py`):
    toggling a user's status, assigning a role, assigning students to a class in bulk, choosing the
    students of a bulk fee, and the totals of the financial report. */
module Admin {
  import opened Wrappers
  import opened Text
  import Validators
  import Classes
  import Fees

  /** The columns of a user that the routes change. */
  datatype Account = Account(role: string, isActive: bool)

  type Accounts = map<int, Account>

  const NotFound: string := "404 Not Found"
  const SelfDeactivateError: string := "You cannot deactivate your own account"
  const SelfRoleError: string := "You cannot change your own role"
  const InvalidRoleError: string := "Invalid role. Must be one of: admin, teacher, student, parent"

  predicate IsAllowedRole(r: string) {
    r == "admin" || r == "teacher" || r == "student" || r == "parent"
  }

  /** `toggle_user_status`: an administrator may flip anyone's `is_active` except their own. */
  function ToggleStatus(accounts: Accounts, userId: int, callerId: int): (r: Result<Accounts, ApiError>)
    ensures userId !in accounts ==> r == Err(ApiError(500, "Failed to toggle user status: " + NotFound))
    ensures userId in accounts && userId == callerId ==> r == Err(ApiError(400, SelfDeactivateError))
    ensures r.Ok? <==> userId in accounts && userId != callerId
    ensures r.Ok? ==> r.value.Keys == accounts.Keys &&
                      r.value[userId] == accounts[userId].(isActive := !accounts[userId].isActive) &&
                      forall k :: k in accounts && k != userId ==> r.value[k] == accounts[k]
  {
    if userId !in accounts then Err(ApiError(500, "Failed to toggle user status: " + NotFound))
    else if userId == callerId then Err(ApiError(400, SelfDeactivateError))
    else Ok(accounts[userId := accounts[userId].(isActive := !accounts[userId].isActive)])
  }

  const ActivatedMessage: string := "User activated successfully"
  const DeactivatedMessage: string := "User deactivated successfully"

  /** The success message names the new status. */
  function ToggleMessage(a: Account): (m: string)
    ensures m == ActivatedMessage <==> a.isActive
    ensures m == DeactivatedMessage <==> !a.isActive
  {
    if a.isActive then ActivatedMessage else DeactivatedMessage
  }

  /** Toggling twice gives back the original table. */
  lemma ToggleTwice(accounts: Accounts, userId: int, callerId: int)
    requires ToggleStatus(accounts, userId, callerId).Ok?
    ensures ToggleStatus(ToggleStatus(accounts, userId, callerId).value, userId, callerId) == Ok(accounts)
  {
    var once := ToggleStatus(accounts, userId, callerId).value;
    assert once[userId := once[userId].(isActive := !once[userId].isActive)] == accounts;
  }

  /** `assign_user_role`: the target must exist (checked first), `role` must be given and be one of the
      four roles, and the target must not be the caller. */
  function AssignRole(accounts: Accounts, userId: int, callerId: int, data: map<string, Validators.FieldValue>)
    : (r: Result<Accounts, ApiError>)
    ensures userId !in accounts ==> r == Err(ApiError(500, "Failed to assign role: " + NotFound))
    ensures r.Ok? <==> userId in accounts && Validators.MissingFields(data, ["role"]) == [] &&
                       IsAllowedRole(data["role"].text) && userId != callerId
    ensures r.Ok? ==> r.value == accounts[userId := accounts[userId].(role := data["role"].text)]
    ensures userId in accounts && Validators.MissingFields(data, ["role"]) == [] && !IsAllowedRole(data["role"].text)
            ==> r == Err(ApiError(400, InvalidRoleError))
  {
    if userId !in accounts then Err(ApiError(500, "Failed to assign role: " + NotFound))
    else
      var missing := Validators.MissingFields(data, ["role"]);
      if missing != [] then Err(ApiError(400, Validators.MissingPrefix + Join(missing, ", ")))
      else if !IsAllowedRole(data["role"].text) then Err(ApiError(400, InvalidRoleError))
      else if userId == callerId then Err(ApiError(400, SelfRoleError))
      else Ok(accounts[userId := accounts[userId].(role := data["role"].text)])
  }

  /** Neither route ever changes the calling administrator's own account. */
  lemma CallerAccountUntouched(accounts: Accounts, userId: int, callerId: int, data: map<string, Validators.FieldValue>)
    requires callerId in accounts
    ensures ToggleStatus(accounts, userId, callerId).Ok? ==> ToggleStatus(accounts, userId, callerId).value[callerId] == accounts[callerId]
    ensures AssignRole(accounts, userId, callerId, data).Ok? ==> AssignRole(accounts, userId, callerId, data).value[callerId] == accounts[callerId]
  {
  }

  /** Every role a route stores is one of the four. */
  lemma {:induction false} RolesStayAllowed(accounts: Accounts, userId: int, callerId: int,
                                            data: map<string, Validators.FieldValue>)
    requires forall k :: k in accounts ==> IsAllowedRole(accounts[k].role)
    requires AssignRole(accounts, userId, callerId, data).Ok?
    ensures var after := AssignRole(accounts, userId, callerId, data).value;
            forall k :: k in after ==> IsAllowedRole(after[k].role)
  {
    var after := AssignRole(accounts, userId, callerId, data).value;
    assert IsAllowedRole(after[userId].role);
  }

  /** The directory of users. */
  class Directory {
    var accounts: Accounts

    constructor (accounts0: Accounts)
      ensures accounts == accounts0
    {
      accounts := accounts0;
    }

    method Toggle(userId: int, callerId: int) returns (r: Result<string, ApiError>)
      modifies this
      ensures var o := ToggleStatus(old(accounts), userId, callerId);
              (o.Ok? ==> accounts == o.value && r == Ok(ToggleMessage(accounts[userId]))) &&
              (o.Err? ==> accounts == old(accounts) && r == Err(o.error))
    {
      if userId !in accounts {
        return Err(ApiError(500, "Failed to toggle user status: " + NotFound));
      }
      if userId == callerId {
        return Err(ApiError(400, SelfDeactivateError));
      }
      accounts := accounts[userId := accounts[userId].(isActive := !accounts[userId].isActive)];
      r := Ok(ToggleMessage(accounts[userId]));
    }

    method Assign(userId: int, callerId: int, data: map<string, Validators.FieldValue>) returns (r: Result<string, ApiError>)
      modifies this
      ensures var o := AssignRole(old(accounts), userId, callerId, data);
              (o.Ok? ==> accounts == o.value &&
                         r == Ok("User role changed from " + old(accounts)[userId].role + " to " + data["role"].text)) &&
              (o.Err? ==> accounts == old(accounts) && r == Err(o.error))
    {
      if userId !in accounts {
        return Err(ApiError(500, "Failed to assign role: " + NotFound));
      }
      var missing := Validators.MissingFields(data, ["role"]);
      if missing != [] {
        return Err(ApiError(400, Validators.MissingPrefix + Join(missing, ", ")));
      }
      var role := data["role"].text;
      if !IsAllowedRole(role) {
        return Err(ApiError(400, InvalidRoleError));
      }
      if userId == callerId {
        return Err(ApiError(400, SelfRoleError));
      }
      var oldRole := accounts[userId].role;
      accounts := accounts[userId := accounts[userId].(role := role)];
      r := Ok("User role changed from " + oldRole + " to " + role);
    }
  }

  /** The `student_ids` of a bulk assignment: missing (absent, `null` or blank), a value other than
      a list, or a list of ids. */
  datatype IdsInput = Missing | NotAList | List(ids: seq<int>)

  /** The listed ids, in order and with repetitions, that name an existing active student: the
      ones the loop assigns and counts. */
  function Assignable(students: Classes.StudentTable, ids: seq<int>): (a: seq<int>)
    ensures |a| <= |ids|
    ensures forall s :: s in a <==> s in ids && s in students && students[s].isActive
  {
    if ids == [] then []
    else
      var last := ids[|ids| - 1];
      Assignable(students, ids[..|ids| - 1]) + (if last in students && students[last].isActive then [last] else [])
  }

  /** The students table after the loop over `ids`: each listed id naming an active student moves
      that student to class `c`. */
  function AssignAll(students: Classes.StudentTable, ids: seq<int>, c: int): (r: Classes.StudentTable)
    ensures r.Keys == students.Keys && forall k :: k in r ==> r[k].isActive == students[k].isActive
  {
    if ids == [] then students
    else
      var prev := AssignAll(students, ids[..|ids| - 1], c);
      var last := ids[|ids| - 1];
      if last in students && students[last].isActive then prev[last := prev[last].(classId := Some(c))] else prev
  }

  /** What the loop leaves: every listed active student is in class `c`, all others are as they were. */
  lemma {:induction false} AssignAllMeans(students: Classes.StudentTable, ids: seq<int>, c: int)
    ensures var r := AssignAll(students, ids, c);
            forall k :: k in r ==> r[k] == if k in ids && students[k].isActive then students[k].(classId := Some(c))
                                           else students[k]
  {
    if ids != [] {
      var init := ids[..|ids| - 1];
      AssignAllMeans(students, init, c);
      assert forall k :: k in ids <==> k in init || k == ids[|ids| - 1];
    }
  }

  /** The checks before the loop, in order; none means the loop runs. */
  function AssignCheck(classes: Classes.ClassTable, students: Classes.StudentTable, c: int, ids: IdsInput)
    : (e: Option<ApiError>)
    ensures e.None? <==> c in classes && ids.List? && Classes.Count(students, c) + |ids.ids| <= classes[c].maxStudents
    ensures c in classes && ids.List? && Classes.Count(students, c) + |ids.ids| > classes[c].maxStudents ==>
              e == Some(ApiError(400, "Class capacity exceeded. Available spots: " +
                                      IntToDec(classes[c].maxStudents - Classes.Count(students, c))))
  {
    if c !in classes then Some(ApiError(500, "Failed to assign students: " + NotFound))
    else if ids.Missing? then Some(ApiError(400, "Missing required fields: student_ids"))
    else if ids.NotAList? then Some(ApiError(400, "student_ids must be a list"))
    else if Classes.Count(students, c) + |ids.ids| > classes[c].maxStudents then
      Some(ApiError(400, "Class capacity exceeded. Available spots: " +
                         IntToDec(classes[c].maxStudents - Classes.Count(students, c))))
    else None
  }

  lemma AssignStep(students: Classes.StudentTable, ids: seq<int>, i: nat, c: int)
    requires i < |ids|
    ensures AssignAll(students, ids[..i + 1], c) ==
            if ids[i] in students && students[ids[i]].isActive then
              AssignAll(students, ids[..i], c)[ids[i] := AssignAll(students, ids[..i], c)[ids[i]].(classId := Some(c))]
            else AssignAll(students, ids[..i], c)
    ensures Assignable(students, ids[..i + 1]) ==
            Assignable(students, ids[..i]) + (if ids[i] in students && students[ids[i]].isActive then [ids[i]] else [])
  {
    assert ids[..i + 1][..i] == ids[..i];
  }

  /** `assign_students_to_class`: after the checks, each listed id that names an active student
      moves that student to the class, and the count reported is the number of such ids. */
  method AssignStudents(db: Classes.School, c: int, ids: IdsInput) returns (r: Result<nat, ApiError>)
    modifies db
    ensures db.classes == old(db.classes)
    ensures var e := AssignCheck(old(db.classes), old(db.students), c, ids);
            (e.Some? ==> r == Err(e.value) && db.students == old(db.students)) &&
            (e.None? ==> r == Ok(|Assignable(old(db.students), ids.ids)|) &&
                         db.students == AssignAll(old(db.students), ids.ids, c))
  {
    var e := AssignCheck(db.classes, db.students, c, ids);
    if e.Some? {
      return Err(e.value);
    }
    var st, moved := MoveListed(db.students, ids.ids, c);
    db.students := st;
    r := Ok(moved);
  }

  /** The loop of `assign_students_to_class` over the listed ids, with the count it keeps. */
  method MoveListed(students: Classes.StudentTable, ids: seq<int>, c: int) returns (st: Classes.StudentTable, moved: nat)
    ensures st == AssignAll(students, ids, c)
    ensures moved == |Assignable(students, ids)|
  {
    st := students;
    moved := 0;
    var i := 0;
    assert ids[..0] == [];
    while i < |ids|
      invariant 0 <= i <= |ids|
      invariant st == AssignAll(students, ids[..i], c)
      invariant moved == |Assignable(students, ids[..i])|
    {
      AssignStep(students, ids, i, c);
      var s := ids[i];
      if s in st && st[s].isActive {
        st := st[s := st[s].(classId := Some(c))];
        moved := moved + 1;
      }
      i := i + 1;
    }
    assert ids[..i] == ids;
  }

  /** The distinct elements of a list are no more than its length. */
  lemma {:induction false} ElementsCard(ids: seq<int>)
    ensures |set s | s in ids| <= |ids|
  {
    if ids != [] {
      ElementsCard(ids[1..]);
      assert (set s | s in ids) == (set s | s in ids[1..]) + {ids[0]};
    }
  }

  /** The roster of `c` gains exactly the listed active students; every other roster only loses. */
  lemma AssignEnrolled(students: Classes.StudentTable, ids: seq<int>, c: int, d: int)
    ensures var after := AssignAll(students, ids, c);
            (d == c ==> Classes.Enrolled(after, d) ==
                        Classes.Enrolled(students, d) + (set s | s in ids && s in students && students[s].isActive)) &&
            (d != c ==> Classes.Enrolled(after, d) <= Classes.Enrolled(students, d))
  {
    var after := AssignAll(students, ids, c);
    AssignAllMeans(students, ids, c);
    if d == c {
      var added := set s | s in ids && s in students && students[s].isActive;
      assert forall k :: k in Classes.Enrolled(after, d) <==> k in Classes.Enrolled(students, d) || k in added;
    }
  }

  /** A bulk assignment the capacity check lets through keeps every class within its capacity. */
  lemma {:induction false} AssignKeepsCapacity(classes: Classes.ClassTable, students: Classes.StudentTable, c: int,
                                               ids: seq<int>)
    requires Classes.WithinCapacity(classes, students)
    requires AssignCheck(classes, students, c, List(ids)).None?
    ensures Classes.WithinCapacity(classes, AssignAll(students, ids, c))
  {
    var after := AssignAll(students, ids, c);
    forall d | d in classes
      ensures Classes.Count(after, d) <= classes[d].maxStudents
    {
      AssignEnrolled(students, ids, c, d);
      if d == c {
        var added := set s | s in ids && s in students && students[s].isActive;
        ElementsCard(ids);
        assert added <= (set s | s in ids);
        SubsetCard(added, set s | s in ids);
      } else {
        SubsetCard(Classes.Enrolled(after, d), Classes.Enrolled(students, d));
      }
    }
  }

  lemma SubsetCard(a: set<int>, b: set<int>)
    requires a <= b
    ensures |a| <= |b|
  {
    assert b == a + (b - a);
  }

  /** Repeating a bulk assignment changes nothing more, though it reports the same count again. */
  lemma AssignIdempotent(students: Classes.StudentTable, ids: seq<int>, c: int)
    ensures AssignAll(AssignAll(students, ids, c), ids, c) == AssignAll(students, ids, c)
    ensures Assignable(AssignAll(students, ids, c), ids) == Assignable(students, ids)
  {
    var once := AssignAll(students, ids, c);
    AssignAllMeans(students, ids, c);
    AssignAllMeans(once, ids, c);
    var twice := AssignAll(once, ids, c);
    assert twice.Keys == once.Keys;
    assert forall k :: k in once ==> twice[k] == once[k];
    assert twice == once;
    AssignableSame(students, once, ids);
  }

  /** The assignable ids depend only on which students exist and are active. */
  lemma {:induction false} AssignableSame(a: Classes.StudentTable, b: Classes.StudentTable, ids: seq<int>)
    requires a.Keys == b.Keys && forall k :: k in a ==> a[k].isActive == b[k].isActive
    ensures Assignable(a, ids) == Assignable(b, ids)
  {
    if ids != [] {
      AssignableSame(a, b, ids[..|ids| - 1]);
    }
  }

  /** The target of a bulk fee: its `type`, and `class_id` and `student_ids` when the keys are present
      (a `class_id` of `null` selects the students without a class). */
  datatype FeeTarget = FeeTarget(kind: Option<string>, classId: Option<Option<int>>, studentIds: Option<seq<int>>)

  const FeeRequired: seq<string> := ["fee_type", "amount", "due_date", "academic_year", "target"]

  function ActiveWhere(students: Classes.StudentTable, p: int -> bool): set<int> {
    set s | s in students && students[s].isActive && p(s)
  }

  /** The students `bulk_create_fees` bills: all active ones, the active ones of a class, or the
      listed active ones. A target without `type` raises a `KeyError`, reported as 500. */
  function FeeTargets(students: Classes.StudentTable, data: map<string, Validators.FieldValue>, t: FeeTarget)
    : (r: Result<set<int>, ApiError>)
    ensures r.Ok? ==> forall s :: s in r.value ==> s in students && students[s].isActive
    ensures r.Ok? <==> Validators.MissingFields(data, FeeRequired) == [] && t.kind.Some? &&
                       (t.kind.value == "all_students" || (t.kind.value == "class" && t.classId.Some?) ||
                        (t.kind.value == "specific" && t.studentIds.Some?))
    ensures r.Ok? && t.kind.value == "class" ==>
              forall s :: s in r.value <==> s in students && students[s].isActive && students[s].classId == t.classId.value
    ensures r.Ok? && t.kind.value == "specific" ==>
              forall s :: s in r.value <==> s in students && students[s].isActive && s in t.studentIds.value
  {
    var missing := Validators.MissingFields(data, FeeRequired);
    if missing != [] then Err(ApiError(400, Validators.MissingPrefix + Join(missing, ", ")))
    else if t.kind.None? then Err(ApiError(500, "Failed to create fees: 'type'"))
    else if t.kind.value == "all_students" then Ok(ActiveWhere(students, _ => true))
    else if t.kind.value == "class" && t.classId.Some? then
      Ok(ActiveWhere(students, s => s in students && students[s].classId == t.classId.value))
    else if t.kind.value == "specific" && t.studentIds.Some? then
      Ok(ActiveWhere(students, s => s in t.studentIds.value))
    else Err(ApiError(400, "Invalid target specification"))
  }

  /** Every accepted target is a part of the all-students target. */
  lemma TargetsWithinAll(students: Classes.StudentTable, data: map<string, Validators.FieldValue>, t: FeeTarget)
    requires FeeTargets(students, data, t).Ok?
    ensures var all := FeeTargets(students, data, FeeTarget(Some("all_students"), None, None));
            all.Ok? && FeeTargets(students, data, t).value <= all.value
  {
  }

  /** The fees of the financial report: the academic year of each fee, with the fee. */
  datatype ReportRow = ReportRow(academicYear: string, fee: Fees.FeeRecord)

  /** A report row passes the filters of `get_financial_report`; an empty or absent filter is not applied. */
  predicate Matches(x: ReportRow, year: Option<string>, startDay: Option<int>, endDay: Option<int>) {
    (year.None? || year.value == "" || x.academicYear == year.value) &&
    (startDay.None? || x.fee.dueDay >= startDay.value) && (endDay.None? || x.fee.dueDay <= endDay.value)
  }

  /** The fees of the rows that pass the filters, in order. */
  function Selected(rows: seq<ReportRow>, year: Option<string>, startDay: Option<int>, endDay: Option<int>)
    : (r: seq<Fees.FeeRecord>)
    ensures |r| <= |rows|
    ensures forall x :: x in rows && Matches(x, year, startDay, endDay) ==> x.fee in r
    ensures forall f :: f in r ==> exists x :: x in rows && Matches(x, year, startDay, endDay) && x.fee == f
  {
    if rows == [] then []
    else
      (if Matches(rows[0], year, startDay, endDay) then [rows[0].fee] else []) + Selected(rows[1..], year, startDay, endDay)
  }

  datatype Summary = Summary(totalFees: nat, totalAmount: int, paidAmount: int, pendingAmount: int,
                             collectionRate: real)

  /** The summary of the report; the collection rate is exact (no rounding to two places). */
  function ReportSummary(fees: seq<Fees.FeeRecord>): (s: Summary)
    ensures s.totalFees == |fees| && s.totalAmount == Fees.SumAmount(fees) && s.paidAmount == Fees.SumPaid(fees)
    ensures s.pendingAmount + s.paidAmount == s.totalAmount
    ensures s.totalAmount <= 0 ==> s.collectionRate == 0.0
    ensures s.totalAmount > 0 ==> s.collectionRate * (s.totalAmount as real) == (s.paidAmount as real) * 100.0
  {
    var total := Fees.SumAmount(fees);
    var paid := Fees.SumPaid(fees);
    Summary(|fees|, total, paid, total - paid, if total > 0 then Rate(paid, total) else 0.0)
  }

  function Rate(paid: int, total: int): (r: real)
    requires total > 0
    ensures r * (total as real) == (paid as real) * 100.0
  {
    (paid as real / total as real) * 100.0
  }

  /** The report subtracts from the bare amounts, so a fee paid in full with its late fee shows a
      negative pending amount. */
  lemma PendingCanBeNegative()
    ensures var f := Fees.FeeRecord(1, "library", 10000, 0, Some(0), 11500, Fees.Paid, 1500, 0, None, None, None);
            Fees.BalanceDue(f) == 0 && ReportSummary([f]).pendingAmount == -1500
  {
    var f := Fees.FeeRecord(1, "library", 10000, 0, Some(0), 11500, Fees.Paid, 1500, 0, None, None, None);
    assert Fees.SumAmount([f]) == 10000 + Fees.SumAmount([]);
    assert Fees.SumPaid([f]) == 11500 + Fees.SumPaid([]);
  }

  /** The number and the summed amount of the fees with a status. */
  function StatusCount(fees: seq<Fees.FeeRecord>, st: Fees.FeeStatus): (n: nat)
    ensures n <= |fees|
  {
    if fees == [] then 0 else (if fees[0].status == st then 1 else 0) + StatusCount(fees[1..], st)
  }

  function StatusAmount(fees: seq<Fees.FeeRecord>, st: Fees.FeeStatus): int {
    if fees == [] then 0 else (if fees[0].status == st then fees[0].amount else 0) + StatusAmount(fees[1..], st)
  }

  /** The four statuses of the breakdown partition the fees: their counts add up to the number of
      fees and their amounts to the total. */
  lemma {:induction false} StatusBreakdownPartitions(fees: seq<Fees.FeeRecord>)
    ensures StatusCount(fees, Fees.Pending) + StatusCount(fees, Fees.Paid) + StatusCount(fees, Fees.Partial) +
            StatusCount(fees, Fees.Overdue) == |fees|
    ensures StatusAmount(fees, Fees.Pending) + StatusAmount(fees, Fees.Paid) + StatusAmount(fees, Fees.Partial) +
            StatusAmount(fees, Fees.Overdue) == Fees.SumAmount(fees)
  {
    if fees != [] {
      StatusBreakdownPartitions(fees[1..]);
    }
  }

  /** The number and the summed amount of the fees of a type, counted from the end. */
  function TypeCount(fees: seq<Fees.FeeRecord>, t: string): (n: nat)
    ensures n <= |fees|
    ensures n > 0 <==> exists i :: 0 <= i < |fees| && fees[i].feeType == t
  {
    if fees == [] then 0
    else
      var init := fees[..|fees| - 1];
      assert forall i :: 0 <= i < |init| ==> init[i] == fees[i];
      TypeCount(init, t) + (if fees[|fees| - 1].feeType == t then 1 else 0)
  }

  function TypeAmount(fees: seq<Fees.FeeRecord>, t: string): int {
    if fees == [] then 0
    else TypeAmount(fees[..|fees| - 1], t) + (if fees[|fees| - 1].feeType == t then fees[|fees| - 1].amount else 0)
  }

  function FeeTypesOf(fees: seq<Fees.FeeRecord>): set<string> {
    set f | f in fees :: f.feeType
  }

  /** The type breakdown: the loop over the fees opens an entry for each new type and adds each fee
      to the count and amount of its type. */
  method TypeBreakdown(fees: seq<Fees.FeeRecord>) returns (m: map<string, (nat, int)>)
    ensures m.Keys == FeeTypesOf(fees)
    ensures forall t :: t in m ==> m[t].0 == TypeCount(fees, t) && m[t].1 == TypeAmount(fees, t)
  {
    m := map[];
    var i := 0;
    while i < |fees|
      invariant 0 <= i <= |fees|
      invariant m.Keys == FeeTypesOf(fees[..i])
      invariant forall t :: t in m ==> m[t].0 == TypeCount(fees[..i], t) && m[t].1 == TypeAmount(fees[..i], t)
    {
      var f := fees[i];
      TypeStep(fees, i);
      if f.feeType !in m {
        TypeAbsent(fees[..i], f.feeType);
        m := m[f.feeType := (0, 0)];
      }
      var entry := m[f.feeType];
      m := m[f.feeType := (entry.0 + 1, entry.1 + f.amount)];
      i := i + 1;
    }
    assert fees[..i] == fees;
  }

  lemma TypeStep(fees: seq<Fees.FeeRecord>, i: nat)
    requires i < |fees|
    ensures FeeTypesOf(fees[..i + 1]) == FeeTypesOf(fees[..i]) + {fees[i].feeType}
    ensures forall t :: TypeCount(fees[..i + 1], t) == TypeCount(fees[..i], t) + (if fees[i].feeType == t then 1 else 0)
    ensures forall t :: TypeAmount(fees[..i + 1], t) ==
                        TypeAmount(fees[..i], t) + (if fees[i].feeType == t then fees[i].amount else 0)
  {
    assert fees[..i + 1][..i] == fees[..i];
    assert fees[..i + 1] == fees[..i] + [fees[i]];
  }

  lemma TypeAbsent(fees: seq<Fees.FeeRecord>, t: string)
    requires t !in FeeTypesOf(fees)
    ensures TypeCount(fees, t) == 0 && TypeAmount(fees, t) == 0
  {
    if fees != [] {
      var init := fees[..|fees| - 1];
      assert fees[|fees| - 1] in fees;
      assert forall f :: f in init ==> f in fees;
      TypeAbsent(init, t);
    }
  }
}
