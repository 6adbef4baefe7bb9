/** The single-file back end (`backend/app.py`): its letter grades, the student code and QR payload
    given at registration, the parsing of a scanned QR payload, manual and QR attendance, fee creation
    and payment, and the register and login guards. Tables are maps: users by e-mail, students by
    their student code, attendance by (student, class, day) and fees by id. Money is in integer
    cents and days are day numbers. Password hashing is modelled as storing a value that the check
    compares for equality. */
module Backend {
  import opened Wrappers
  import opened Text
  import Fees

  /** `calculate_grade_letter`: 90, 85, 80, 75, 70, 65 and 60 are the lower bounds of A+ to D. */
  function GradeLetter(p: real): (l: string)
    ensures l == "A+" <==> p >= 90.0
    ensures l == "A" <==> 85.0 <= p < 90.0
    ensures l == "B+" <==> 80.0 <= p < 85.0
    ensures l == "B" <==> 75.0 <= p < 80.0
    ensures l == "C+" <==> 70.0 <= p < 75.0
    ensures l == "C" <==> 65.0 <= p < 70.0
    ensures l == "D" <==> 60.0 <= p < 65.0
    ensures l == "F" <==> p < 60.0
  {
    if p >= 90.0 then "A+"
    else if p >= 85.0 then "A"
    else if p >= 80.0 then "B+"
    else if p >= 75.0 then "B"
    else if p >= 70.0 then "C+"
    else if p >= 65.0 then "C"
    else if p >= 60.0 then "D"
    else "F"
  }

  /** The position of a letter from F (0) up to A+ (7). */
  function LetterRank(l: string): nat {
    if l == "A+" then 7 else if l == "A" then 6 else if l == "B+" then 5 else if l == "B" then 4
    else if l == "C+" then 3 else if l == "C" then 2 else if l == "D" then 1 else 0
  }

  /** A higher percentage never gets a worse letter. */
  lemma LetterMonotone(p: real, q: real)
    requires p <= q
    ensures LetterRank(GradeLetter(p)) <= LetterRank(GradeLetter(q))
  {
  }

  /** `f"{prefix}{user.id:06d}"`: the prefix and the id zero-padded to at least six digits. */
  function ProfileCode(prefix: string, userId: nat): (c: string)
    ensures |c| == |prefix| + (if |NatToDec(userId)| >= 6 then |NatToDec(userId)| else 6)
    ensures c[..|prefix|] == prefix
    ensures forall i :: |prefix| <= i < |c| ==> IsDigit(c[i])
  {
    var r := PadStart(NatToDec(userId), 6, '0');
    PadDigits(NatToDec(userId), 6);
    prefix + r
  }

  /** Zero padding keeps a numeral all digits. */
  lemma PadDigits(s: string, width: nat)
    requires forall i :: 0 <= i < |s| ==> IsDigit(s[i])
    ensures forall i :: 0 <= i < |PadStart(s, width, '0')| ==> IsDigit(PadStart(s, width, '0')[i])
  {
    var r := PadStart(s, width, '0');
    forall i | 0 <= i < |r|
      ensures IsDigit(r[i])
    {
      if i >= |r| - |s| {
        assert r[i] == r[|r| - |s|..][i - (|r| - |s|)];
      }
    }
  }

  /** The student number given at registration: "STU" and the zero-padded id. */
  function StudentCode(userId: nat): (c: string)
    ensures |c| >= 9 && c[..3] == "STU"
    ensures forall i :: 3 <= i < |c| ==> IsDigit(c[i])
  {
    ProfileCode("STU", userId)
  }

  /** The employee number given at registration: "TCH" and the zero-padded id. */
  function TeacherCode(userId: nat): (c: string)
    ensures |c| >= 9 && c[..3] == "TCH"
    ensures forall i :: 3 <= i < |c| ==> IsDigit(c[i])
  {
    ProfileCode("TCH", userId)
  }

  /** For ids below a million the code is exactly "STU" and six digits whose value is the id. */
  lemma {:induction false} StudentCodeShape(userId: nat)
    requires userId < 1000000
    ensures |StudentCode(userId)| == 9
    ensures DecToNat(StudentCode(userId)[3..]) == userId
  {
    var n := NatToDec(userId);
    var k := |n|;
    var digits := StudentCode(userId)[3..];
    assert digits == PadStart(n, 6, '0');
    if userId >= 10 {
      assert k >= 2;
    }
    LengthBelowMillion(userId);
    assert digits == Zeros(6 - k) + n;
    LeadingZeros(6 - k, n);
    DecRoundTrip(userId);
  }

  lemma {:induction false} LengthBelowMillion(n: nat)
    requires n < 1000000
    ensures |NatToDec(n)| <= 6
  {
    if n >= 10 {
      var k := if n < 100 then 2 else if n < 1000 then 3 else if n < 10000 then 4 else if n < 100000 then 5 else 6;
      assert Pow10(1) == 10 && Pow10(2) == 100 && Pow10(3) == 1000 && Pow10(4) == 10000 && Pow10(5) == 100000;
      assert Pow10(6) == 1000000;
      DecLength(n, k);
    }
  }

  /** The zero padding. */
  function Zeros(z: nat): (r: string)
    ensures |r| == z && forall i :: 0 <= i < z ==> r[i] == '0'
  {
    seq(z, _ => '0')
  }

  /** Leading zeros do not change the value of a numeral. */
  lemma {:induction false} LeadingZeros(z: nat, s: string)
    requires forall i :: 0 <= i < |s| ==> IsDigit(s[i])
    ensures forall i :: 0 <= i < |Zeros(z) + s| ==> IsDigit((Zeros(z) + s)[i])
    ensures DecToNat(Zeros(z) + s) == DecToNat(s)
  {
    var t := Zeros(z) + s;
    if s == [] {
      assert t == Zeros(z);
      AllZeros(z);
    } else {
      var init := s[..|s| - 1];
      assert t[..|t| - 1] == Zeros(z) + init;
      LeadingZeros(z, init);
    }
  }

  lemma {:induction false} AllZeros(z: nat)
    ensures DecToNat(Zeros(z)) == 0
  {
    if z > 0 {
      assert Zeros(z)[..z - 1] == Zeros(z - 1);
      AllZeros(z - 1);
    }
  }

  /** The payload encoded in a student's QR code: "student:<user id>:<student code>". */
  function QrPayload(userId: nat, code: string): (p: string)
    ensures |p| == 9 + |NatToDec(userId)| + |code|
    ensures p[..8] == "student:" && p[8 + |NatToDec(userId)|] == ':'
    ensures p[|p| - |code|..] == code
  {
    "student:" + NatToDec(userId) + ":" + code
  }

  /** What a scanned payload names. */
  datatype QrRef = QrRef(userId: int, studentCode: string)

  const InvalidQr: string := "Invalid QR code"
  const InvalidQrFormat: string := "Invalid QR code format"

  /** Python's `int()` on a numeral with an optional sign (no whitespace or `_` separators). */
  function ParseInt(s: string): (r: Option<int>)
    ensures r.Some? ==> s != []
    ensures r.Some? && r.value < 0 ==> s[0] == '-'
    ensures s != [] && IsDigit(s[0]) ==> (r.Some? <==> AllDigits(s))
  {
    if AllDigits(s) then Some(DecToNat(s))
    else if |s| >= 2 && s[0] == '-' && AllDigits(s[1..]) then Some(-(DecToNat(s[1..]) as int))
    else if |s| >= 2 && s[0] == '+' && AllDigits(s[1..]) then Some(DecToNat(s[1..]))
    else None
  }

  /** Every integer's numeral parses back to it. */
  lemma {:induction false} ParseIntRoundTrip(n: int)
    ensures ParseInt(IntToDec(n)) == Some(n)
  {
    if n < 0 {
      var s := "-" + NatToDec(-n);
      assert s[1..] == NatToDec(-n);
      assert !IsDigit(s[0]);
      DecRoundTrip(-n);
    } else {
      DecRoundTrip(n);
    }
  }

  /** The first steps of `qr_attendance`: exactly three ':'-separated parts, the first "student"
      and the second an integer. */
  function ParseQr(qr: string): (r: Result<QrRef, ApiError>)
    ensures r.Ok? <==> |Split(qr, ':')| == 3 && Split(qr, ':')[0] == "student" && ParseInt(Split(qr, ':')[1]).Some?
    ensures r.Ok? ==> r.value == QrRef(ParseInt(Split(qr, ':')[1]).value, Split(qr, ':')[2])
    ensures r.Err? ==> r.error.code == 400
  {
    var parts := Split(qr, ':');
    if |parts| != 3 || parts[0] != "student" then Err(ApiError(400, InvalidQr))
    else match ParseInt(parts[1])
      case None => Err(ApiError(400, InvalidQrFormat))
      case Some(uid) => Ok(QrRef(uid, parts[2]))
  }

  /** Parsing a payload built at registration gives back the user id and the code. */
  lemma {:induction false} QrRoundTrip(userId: nat, code: string)
    requires ':' !in code
    ensures ParseQr(QrPayload(userId, code)) == Ok(QrRef(userId, code))
  {
    var n := NatToDec(userId);
    assert ':' !in n by {
      assert forall i :: 0 <= i < |n| ==> IsDigit(n[i]);
    }
    assert ':' !in "student";
    assert QrPayload(userId, code) == "student" + [':'] + n + [':'] + code;
    SplitThree("student", n, code, ':');
    DecRoundTrip(userId);
  }

  /** The payload given to a new student scans back to that student. */
  lemma {:induction false} RegisteredQrScans(userId: nat)
    ensures ParseQr(QrPayload(userId, StudentCode(userId))) == Ok(QrRef(userId, StudentCode(userId)))
  {
    var c := StudentCode(userId);
    assert ':' !in c by {
      assert c[..3] == "STU";
      assert forall i :: 0 <= i < |c| ==> c[i] != ':';
    }
    QrRoundTrip(userId, c);
  }

  /** A payload with two parts is refused as invalid, and one whose user id is not a number as
      badly formed. */
  /** The two error texts, on a payload with too few parts and on one whose id is not a number. */
  lemma MalformedPayloads()
    ensures ParseQr("student:12") == Err(ApiError(400, InvalidQr))
    ensures ParseQr("student:x:STU000001") == Err(ApiError(400, InvalidQrFormat))
  {
    assert "student:12" == "student" + ":" + "12";
    TwoPartPayload("student", "12");
    assert "x"[0] == 'x' && !IsDigit('x');
    assert "student:x:STU000001" == "student:" + "x" + ":" + "STU000001";
    NonNumericPayload("x", "STU000001");
  }

  /** Any payload of two ':'-separated parts is refused as invalid. */
  lemma TwoPartPayload(a: string, b: string)
    requires ':' !in a && ':' !in b
    ensures ParseQr(a + ":" + b) == Err(ApiError(400, InvalidQr))
  {
    assert a + ":" + b == a + [':'] + b;
    SplitTwo(a, b, ':');
  }

  /** A student payload of three parts whose id does not parse is refused as malformed. */
  lemma NonNumericPayload(id: string, code: string)
    requires ':' !in id && ':' !in code && ParseInt(id).None?
    ensures ParseQr("student:" + id + ":" + code) == Err(ApiError(400, InvalidQrFormat))
  {
    assert ':' !in "student";
    assert "student:" + id + ":" + code == "student" + [':'] + id + [':'] + code;
    SplitThree("student", id, code, ':');
  }

  /** A user row; the password hash is compared for equality by the check. */
  datatype User = User(id: int, passwordHash: string, role: string, isActive: bool)

  /** The profile that registration creates beside the user. */
  datatype Profile = NoProfile | StudentProfile(code: string, qrPayload: string) | TeacherProfile(code: string)
                   | GuardianProfile

  /** A student row: its database id, its user and its class. */
  datatype StudentRow = StudentRow(id: int, userId: int, classId: Option<int>)

  datatype AttKey = AttKey(studentId: int, classId: int, day: int)
  datatype AttRow = AttRow(status: string, markedBy: int, markedAt: int)

  /** A fee row of this back end: the final amount is stored beside the amount and the discount. */
  datatype FeeRow = FeeRow(studentId: int, academicYear: string, term: string, amount: int, discount: int,
                           finalAmount: int, dueDay: int, paidAmount: int, status: Fees.FeeStatus,
                           paymentDay: Option<int>)

  type UserTable = map<string, User>
  type StudentTable = map<string, StudentRow>
  type AttendanceTable = map<AttKey, AttRow>
  type FeeTable = map<int, FeeRow>

  const Unauthorized: string := "Unauthorized"
  const EmailExists: string := "Email already exists"
  const AccountDisabled: string := "Account is disabled"
  const InvalidCredentials: string := "Invalid credentials"
  const AlreadyMarked: string := "Attendance already marked for today"
  const StudentNotFound: string := "Student not found"
  /** An error the route does not catch: the framework answers 500. */
  const ServerError: string := "Internal Server Error"

  /** The profile `register` creates for a role. */
  function ProfileFor(role: string, userId: nat): (p: Profile)
    ensures p.StudentProfile? <==> role == "student"
    ensures p.StudentProfile? ==> p.qrPayload == QrPayload(userId, p.code) && p.code == StudentCode(userId)
    ensures p.TeacherProfile? <==> role == "teacher"
    ensures p.GuardianProfile? <==> role == "guardian"
  {
    if role == "student" then StudentProfile(StudentCode(userId), QrPayload(userId, StudentCode(userId)))
    else if role == "teacher" then TeacherProfile(TeacherCode(userId))
    else if role == "guardian" then GuardianProfile
    else NoProfile
  }

  /** `register`: an e-mail already stored is refused; otherwise the user is stored under the id
      the database gives it, with the profile of its role. */
  function Register(users: UserTable, email: string, password: string, role: string, newId: nat)
    : (r: Result<(UserTable, Profile), ApiError>)
    ensures r.Err? <==> email in users
    ensures r.Err? ==> r.error == ApiError(400, EmailExists)
    ensures r.Ok? ==> r.value.0 == users[email := User(newId, password, role, true)] &&
                      r.value.1 == ProfileFor(role, newId)
  {
    if email in users then Err(ApiError(400, EmailExists))
    else Ok((users[email := User(newId, password, role, true)], ProfileFor(role, newId)))
  }

  /** `login`: a disabled account is reported only to a caller who gave its password. */
  function Login(users: UserTable, email: string, password: string): (r: Result<User, ApiError>)
    ensures r.Ok? <==> email in users && users[email].passwordHash == password && users[email].isActive
    ensures r.Ok? ==> r.value == users[email]
    ensures r == Err(ApiError(403, AccountDisabled)) <==>
            email in users && users[email].passwordHash == password && !users[email].isActive
    ensures r.Err? ==> r.error.code == 403 || r.error == ApiError(401, InvalidCredentials)
  {
    if email in users && users[email].passwordHash == password then
      if !users[email].isActive then Err(ApiError(403, AccountDisabled)) else Ok(users[email])
    else Err(ApiError(401, InvalidCredentials))
  }

  /** A wrong password gets the same answer whether or not the account exists or is disabled. */
  lemma WrongPasswordRevealsNothing(users: UserTable, email: string, password: string)
    requires email !in users || users[email].passwordHash != password
    ensures Login(users, email, password) == Err(ApiError(401, InvalidCredentials))
  {
  }

  /** A user who has just registered can log in with the same password. */
  lemma RegisterThenLogin(users: UserTable, email: string, password: string, role: string, newId: nat)
    requires email !in users
    ensures Login(Register(users, email, password, role, newId).value.0, email, password) ==
            Ok(User(newId, password, role, true))
  {
  }

  predicate IsStaff(role: string) {
    role == "admin" || role == "teacher"
  }

  /** Manual `mark_attendance`: a staff caller upserts the row under (student, class, day); any
      status is stored as given. */
  function Mark(table: AttendanceTable, role: string, callerId: int, studentId: int, classId: int, day: int,
                status: string, now: int): (r: Result<AttendanceTable, ApiError>)
    ensures r.Ok? <==> IsStaff(role)
    ensures r.Ok? ==> r.value == table[AttKey(studentId, classId, day) := AttRow(status, callerId, now)]
    ensures r.Ok? ==> r.value.Keys == table.Keys + {AttKey(studentId, classId, day)}
    ensures r.Err? ==> r.error == ApiError(403, Unauthorized)
  {
    if !IsStaff(role) then Err(ApiError(403, Unauthorized))
    else Ok(table[AttKey(studentId, classId, day) := AttRow(status, callerId, now)])
  }

  /** Marking the same key again only replaces its row: the number of rows does not grow. */
  lemma RemarkKeepsSize(table: AttendanceTable, role: string, callerId: int, studentId: int, classId: int, day: int,
                        status: string, now: int, status2: string, now2: int)
    requires Mark(table, role, callerId, studentId, classId, day, status, now).Ok?
    ensures var once := Mark(table, role, callerId, studentId, classId, day, status, now).value;
            var twice := Mark(once, role, callerId, studentId, classId, day, status2, now2).value;
            |twice.Keys| == |once.Keys| && twice[AttKey(studentId, classId, day)].status == status2
  {
    var once := Mark(table, role, callerId, studentId, classId, day, status, now).value;
    var twice := Mark(once, role, callerId, studentId, classId, day, status2, now2).value;
    assert twice.Keys == once.Keys;
  }

  predicate MarkedOn(table: AttendanceTable, studentId: int, day: int) {
    exists k :: k in table && k.studentId == studentId && k.day == day
  }

  /** `qr_attendance`: a staff caller scans a payload; the named student, found by code and user,
      is marked present once per day in their class. A student without a class makes the insert
      violate `NOT NULL` on `class_id`, which the route does not catch. */
  function Scan(table: AttendanceTable, students: StudentTable, role: string, callerId: int, qr: string,
                today: int, now: int): (r: Result<AttendanceTable, ApiError>)
    ensures r.Ok? <==> IsStaff(role) && ParseQr(qr).Ok? && ParseQr(qr).value.studentCode in students &&
                       students[ParseQr(qr).value.studentCode].userId == ParseQr(qr).value.userId &&
                       !MarkedOn(table, students[ParseQr(qr).value.studentCode].id, today) &&
                       students[ParseQr(qr).value.studentCode].classId.Some?
    ensures r.Ok? ==> var s := students[ParseQr(qr).value.studentCode];
                      r.value == table[AttKey(s.id, s.classId.value, today) := AttRow("present", callerId, now)]
  {
    if !IsStaff(role) then Err(ApiError(403, Unauthorized))
    else match ParseQr(qr)
      case Err(e) => Err(e)
      case Ok(ref) =>
        if ref.studentCode !in students || students[ref.studentCode].userId != ref.userId then
          Err(ApiError(404, StudentNotFound))
        else
          var s := students[ref.studentCode];
          if MarkedOn(table, s.id, today) then Err(ApiError(400, AlreadyMarked))
          else if s.classId.None? then Err(ApiError(500, ServerError))
          else Ok(table[AttKey(s.id, s.classId.value, today) := AttRow("present", callerId, now)])
  }

  /** A second scan on the same day is refused, and so is a scan after a manual mark that day. */
  lemma OneScanPerDay(table: AttendanceTable, students: StudentTable, role: string, callerId: int, qr: string,
                      today: int, now: int, later: int)
    requires Scan(table, students, role, callerId, qr, today, now).Ok?
    ensures Scan(Scan(table, students, role, callerId, qr, today, now).value, students, role, callerId, qr, today, later)
            == Err(ApiError(400, AlreadyMarked))
  {
    var s := students[ParseQr(qr).value.studentCode];
    var after := Scan(table, students, role, callerId, qr, today, now).value;
    assert AttKey(s.id, s.classId.value, today) in after;
  }

  lemma ScanAfterMark(table: AttendanceTable, students: StudentTable, role: string, callerId: int, qr: string,
                      classId: int, today: int, now: int, later: int)
    requires IsStaff(role) && ParseQr(qr).Ok? && ParseQr(qr).value.studentCode in students
    requires students[ParseQr(qr).value.studentCode].userId == ParseQr(qr).value.userId
    ensures var s := students[ParseQr(qr).value.studentCode];
            var marked := Mark(table, role, callerId, s.id, classId, today, "absent", now).value;
            Scan(marked, students, role, callerId, qr, today, later) == Err(ApiError(400, AlreadyMarked))
  {
    var s := students[ParseQr(qr).value.studentCode];
    var marked := Mark(table, role, callerId, s.id, classId, today, "absent", now).value;
    assert AttKey(s.id, classId, today) in marked;
  }

  /** `create_fee`: only an administrator; the final amount is the amount less the discount
      (0 when not given), and the fee starts pending with nothing paid. */
  function CreateFee(fees: FeeTable, role: string, newId: int, studentId: int, academicYear: Option<string>,
                     term: string, amount: int, discount: Option<int>, dueDay: int): (r: Result<FeeTable, ApiError>)
    ensures r.Ok? <==> role == "admin"
    ensures r.Ok? ==> newId in r.value && r.value.Keys == fees.Keys + {newId}
    ensures r.Ok? ==> var f := r.value[newId];
                      f.finalAmount + f.discount == f.amount && f.amount == amount && f.discount == discount.GetOr(0) &&
                      f.paidAmount == 0 && f.status == Fees.Pending && f.paymentDay.None? &&
                      f.academicYear == academicYear.GetOr("2024-25")
    ensures r.Ok? ==> r.value[newId].studentId == studentId && r.value[newId].term == term &&
                      r.value[newId].dueDay == dueDay
    ensures r.Ok? ==> forall k :: k in fees && k != newId ==> r.value[k] == fees[k]
  {
    if role != "admin" then Err(ApiError(403, Unauthorized))
    else
      var d := discount.GetOr(0);
      Ok(fees[newId := FeeRow(studentId, academicYear.GetOr("2024-25"), term, amount, d, amount - d, dueDay, 0,
                              Fees.Pending, None)])
  }

  /** The status rule of `pay_fee`: paid once the final amount is reached, partial while something
      is paid, and otherwise unchanged. */
  function StatusAfterPayment(f: FeeRow, paid: int): (s: Fees.FeeStatus)
    ensures paid >= f.finalAmount ==> s == Fees.Paid
    ensures 0 < paid < f.finalAmount ==> s == Fees.Partial
    ensures paid <= 0 && paid < f.finalAmount ==> s == f.status
  {
    if paid >= f.finalAmount then Fees.Paid else if paid > 0 then Fees.Partial else f.status
  }

  /** The body of `pay_fee`: an administrator or a guardian of the fee's student adds the amount,
      which is not checked, and records today as the payment day. `children` is the caller's
      guardian profile (none without one). */
  function Pay(fees: FeeTable, role: string, children: Option<set<int>>, feeId: int, amount: int, today: int)
    : (r: Result<FeeTable, ApiError>)
    ensures r.Ok? <==> (role == "admin" || role == "guardian") && feeId in fees &&
                       (role == "guardian" ==> children.Some? && fees[feeId].studentId in children.value)
    ensures r.Ok? ==> var f := fees[feeId];
                      var paid := f.paidAmount + amount;
                      r.value == fees[feeId := f.(paidAmount := paid, paymentDay := Some(today),
                                                  status := StatusAfterPayment(f, paid))]
    ensures (role == "admin" || role == "guardian") && feeId !in fees ==> r == Err(ApiError(404, "Not Found"))
  {
    if role != "admin" && role != "guardian" then Err(ApiError(403, Unauthorized))
    else if feeId !in fees then Err(ApiError(404, "Not Found"))
    else if role == "guardian" && (children.None? || fees[feeId].studentId !in children.value) then
      Err(ApiError(403, Unauthorized))
    else
      var f := fees[feeId];
      var paid := f.paidAmount + amount;
      Ok(fees[feeId := f.(paidAmount := paid, paymentDay := Some(today), status := StatusAfterPayment(f, paid))])
  }

  /** A fee just created is settled by one payment of its final amount, and by nothing less. */
  lemma CreatedFeeSettles(fees: FeeTable, newId: int, studentId: int, academicYear: Option<string>, term: string,
                          amount: int, discount: Option<int>, dueDay: int, paid: int, today: int)
    requires amount - discount.GetOr(0) > 0
    ensures var created := CreateFee(fees, "admin", newId, studentId, academicYear, term, amount, discount, dueDay).value;
            var after := Pay(created, "admin", None, newId, paid, today).value;
            (after[newId].status == Fees.Paid <==> paid >= amount - discount.GetOr(0)) &&
            after[newId].paidAmount == paid
  {
  }

  /** Paying the whole remaining final amount settles the fee. */
  lemma PayingBalanceSettles(fees: FeeTable, role: string, children: Option<set<int>>, feeId: int, today: int)
    requires feeId in fees
    requires Pay(fees, role, children, feeId, fees[feeId].finalAmount - fees[feeId].paidAmount, today).Ok?
    ensures Pay(fees, role, children, feeId, fees[feeId].finalAmount - fees[feeId].paidAmount, today).value[feeId].status
            == Fees.Paid
  {
  }

  /** Nothing bounds the payment: a payment beyond the final amount is recorded in full. */
  lemma OverpaymentRecorded(fees: FeeTable, feeId: int, today: int)
    requires feeId in fees && fees[feeId].paidAmount == fees[feeId].finalAmount
    ensures var after := Pay(fees, "admin", None, feeId, 100, today).value;
            after[feeId].paidAmount == fees[feeId].finalAmount + 100 && after[feeId].status == Fees.Paid
  {
  }

  /** The route as declared: the rule `/api/fees/<int:fee_id>/pay` passes `fee_id` to a view that
      takes no argument, so every request ends in a `TypeError` and a 500 answer. */
  function PayRouteAsWritten(fees: FeeTable, pathFeeId: int, role: string, children: Option<set<int>>, feeId: int,
                             amount: int, today: int): (r: Result<FeeTable, ApiError>)
    ensures r.Err? && r.error.code == 500
  {
    Err(ApiError(500, ServerError))
  }

  /** With the view taking the path parameter, the body runs, and an administrator's payment of a
      stored fee is recorded. */
  function PayRoute(fees: FeeTable, pathFeeId: int, role: string, children: Option<set<int>>, feeId: int,
                    amount: int, today: int): (r: Result<FeeTable, ApiError>)
    ensures role == "admin" && feeId in fees ==>
              r.Ok? && feeId in r.value && r.value[feeId].paidAmount == fees[feeId].paidAmount + amount
  {
    Pay(fees, role, children, feeId, amount, today)
  }

  /** The declared route refuses even a payment the handler body accepts. */
  lemma PayRouteAlwaysFails(fees: FeeTable, feeId: int, amount: int, today: int)
    requires feeId in fees
    ensures PayRouteAsWritten(fees, feeId, "admin", None, feeId, amount, today).Err?
    ensures PayRoute(fees, feeId, "admin", None, feeId, amount, today).Ok?
  {
  }

  /** The tables the routes change. */
  class Database {
    var users: UserTable
    var attendance: AttendanceTable
    var fees: FeeTable

    constructor (users0: UserTable, attendance0: AttendanceTable, fees0: FeeTable)
      ensures users == users0 && attendance == attendance0 && fees == fees0
    {
      users := users0;
      attendance := attendance0;
      fees := fees0;
    }

    method RegisterUser(email: string, password: string, role: string, newId: nat) returns (r: Result<Profile, ApiError>)
      modifies this
      ensures var o := Register(old(users), email, password, role, newId);
              (o.Ok? ==> users == o.value.0 && r == Ok(o.value.1)) && (o.Err? ==> users == old(users) && r == Err(o.error))
      ensures attendance == old(attendance) && fees == old(fees)
    {
      if email in users {
        return Err(ApiError(400, EmailExists));
      }
      users := users[email := User(newId, password, role, true)];
      r := Ok(ProfileFor(role, newId));
    }

    method MarkAttendance(role: string, callerId: int, studentId: int, classId: int, day: int, status: string, now: int)
      returns (r: Result<(), ApiError>)
      modifies this
      ensures var o := Mark(old(attendance), role, callerId, studentId, classId, day, status, now);
              (o.Ok? ==> attendance == o.value && r == Ok(())) && (o.Err? ==> attendance == old(attendance) && r == Err(o.error))
      ensures users == old(users) && fees == old(fees)
    {
      if !IsStaff(role) {
        return Err(ApiError(403, Unauthorized));
      }
      var key := AttKey(studentId, classId, day);
      if key in attendance {
        attendance := attendance[key := attendance[key].(status := status, markedBy := callerId, markedAt := now)];
      } else {
        attendance := attendance[key := AttRow(status, callerId, now)];
      }
      r := Ok(());
    }

    method ScanQr(students: StudentTable, role: string, callerId: int, qr: string, today: int, now: int)
      returns (r: Result<(), ApiError>)
      modifies this
      ensures var o := Scan(old(attendance), students, role, callerId, qr, today, now);
              (o.Ok? ==> attendance == o.value && r == Ok(())) && (o.Err? ==> attendance == old(attendance) && r == Err(o.error))
      ensures users == old(users) && fees == old(fees)
    {
      if !IsStaff(role) {
        return Err(ApiError(403, Unauthorized));
      }
      var parsed := ParseQr(qr);
      if parsed.Err? {
        return Err(parsed.error);
      }
      var ref := parsed.value;
      if ref.studentCode !in students || students[ref.studentCode].userId != ref.userId {
        return Err(ApiError(404, StudentNotFound));
      }
      var s := students[ref.studentCode];
      if MarkedOn(attendance, s.id, today) {
        return Err(ApiError(400, AlreadyMarked));
      }
      if s.classId.None? {
        return Err(ApiError(500, ServerError));
      }
      attendance := attendance[AttKey(s.id, s.classId.value, today) := AttRow("present", callerId, now)];
      r := Ok(());
    }

    method NewFee(role: string, newId: int, studentId: int, academicYear: Option<string>, term: string, amount: int,
                  discount: Option<int>, dueDay: int) returns (r: Result<int, ApiError>)
      modifies this
      ensures var o := CreateFee(old(fees), role, newId, studentId, academicYear, term, amount, discount, dueDay);
              (o.Ok? ==> fees == o.value && r == Ok(newId)) && (o.Err? ==> fees == old(fees) && r == Err(o.error))
      ensures users == old(users) && attendance == old(attendance)
    {
      if role != "admin" {
        return Err(ApiError(403, Unauthorized));
      }
      var d := discount.GetOr(0);
      var finalAmount := amount - d;
      fees := fees[newId := FeeRow(studentId, academicYear.GetOr("2024-25"), term, amount, d, finalAmount, dueDay, 0,
                                   Fees.Pending, None)];
      r := Ok(newId);
    }

    method PayFee(role: string, children: Option<set<int>>, feeId: int, amount: int, today: int)
      returns (r: Result<(), ApiError>)
      modifies this
      ensures var o := Pay(old(fees), role, children, feeId, amount, today);
              (o.Ok? ==> fees == o.value && r == Ok(())) && (o.Err? ==> fees == old(fees) && r == Err(o.error))
      ensures users == old(users) && attendance == old(attendance)
    {
      if role != "admin" && role != "guardian" {
        return Err(ApiError(403, Unauthorized));
      }
      if feeId !in fees {
        return Err(ApiError(404, "Not Found"));
      }
      if role == "guardian" && (children.None? || fees[feeId].studentId !in children.value) {
        return Err(ApiError(403, Unauthorized));
      }
      var f := fees[feeId];
      f := f.(paidAmount := f.paidAmount + amount);
      f := f.(paymentDay := Some(today));
      if f.paidAmount >= f.finalAmount {
        f := f.(status := Fees.Paid);
      } else if f.paidAmount > 0 {
        f := f.(status := Fees.Partial);
      }
      fees := fees[feeId := f];
      r := Ok(());
    }
  }
}
