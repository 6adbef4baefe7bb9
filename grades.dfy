/** Grades and report cards of the modular back end (`app/models/grade.py`,
    `app/models/report_card.py`): the letter thresholds, the derivation of a grade's value from
    points, the credit-weighted GPA, the attendance counts of a report card, its rank in class, and
    publishing. Rounding to two decimals is not modelled: values are exact reals. */
module Grades {
  import opened Wrappers
  import Attendance

  /** The letter of a numeric grade: 90, 80, 70 and 60 are the lower bounds of A to D. */
  function LetterFor(g: real): (l: string)
    ensures l == "A" <==> g >= 90.0
    ensures l == "B" <==> 80.0 <= g < 90.0
    ensures l == "C" <==> 70.0 <= g < 80.0
    ensures l == "D" <==> 60.0 <= g < 70.0
    ensures l == "F" <==> g < 60.0
  {
    if g >= 90.0 then "A"
    else if g >= 80.0 then "B"
    else if g >= 70.0 then "C"
    else if g >= 60.0 then "D"
    else "F"
  }

  /** `Grade.calculate_letter_grade`: no letter without a value. */
  function GradeLetter(v: Option<real>): (l: Option<string>)
    ensures l.None? <==> v.None?
    ensures v.Some? ==> l == Some(LetterFor(v.value))
  {
    match v
    case None => None
    case Some(g) => Some(LetterFor(g))
  }

  /** The order of the letters, F lowest. */
  function LetterRank(l: string): int {
    if l == "A" then 4 else if l == "B" then 3 else if l == "C" then 2 else if l == "D" then 1 else 0
  }

  /** A higher grade never earns a worse letter. */
  lemma LetterMonotone(g1: real, g2: real)
    requires g1 <= g2
    ensures LetterRank(LetterFor(g1)) <= LetterRank(LetterFor(g2))
  {
  }

  /** The stored columns of a grade that the model follows. */
  datatype GradeRecord = GradeRecord(studentId: int, subjectId: int, teacherId: int, gradeType: string,
                                     gradeValue: Option<real>, letterGrade: Option<string>, maxPoints: real,
                                     earnedPoints: Option<real>, weight: real)

  /** `Grade(...)`: with earned points and a positive maximum the value is the share of points in
      percent and the letter follows from it; otherwise the value is kept as passed and no letter is
      set. */
  function NewGrade(studentId: int, subjectId: int, teacherId: int, gradeType: string, gradeValue: Option<real>,
                    maxPoints: real, earnedPoints: Option<real>, weight: real): (g: GradeRecord)
    ensures earnedPoints.Some? && maxPoints > 0.0 ==>
              g.gradeValue.Some? && g.gradeValue.value * maxPoints == earnedPoints.value * 100.0 &&
              g.letterGrade == GradeLetter(g.gradeValue)
    ensures !(earnedPoints.Some? && maxPoints > 0.0) ==> g.gradeValue == gradeValue && g.letterGrade.None?
    ensures g.maxPoints == maxPoints && g.earnedPoints == earnedPoints && g.weight == weight
  {
    var computed := earnedPoints.Some? && maxPoints > 0.0;
    var value := if computed then Some(earnedPoints.value / maxPoints * 100.0) else gradeValue;
    GradeRecord(studentId, subjectId, teacherId, gradeType, value, if computed then GradeLetter(value) else None,
                maxPoints, earnedPoints, weight)
  }

  /** `Grade.percentage`: the share of points when they can be computed, else the stored value. */
  function Percentage(g: GradeRecord): (p: Option<real>)
    ensures g.earnedPoints.Some? && g.maxPoints > 0.0 ==>
              p.Some? && p.value * g.maxPoints == g.earnedPoints.value * 100.0
    ensures !(g.earnedPoints.Some? && g.maxPoints > 0.0) ==> p == g.gradeValue
  {
    if g.earnedPoints.Some? && g.maxPoints > 0.0 then Some(g.earnedPoints.value / g.maxPoints * 100.0)
    else g.gradeValue
  }

  /** A freshly built grade reports its own value as its percentage. */
  lemma NewGradePercentageIsValue(studentId: int, subjectId: int, teacherId: int, gradeType: string,
                                  gradeValue: Option<real>, maxPoints: real, earnedPoints: Option<real>, weight: real)
    ensures var g := NewGrade(studentId, subjectId, teacherId, gradeType, gradeValue, maxPoints, earnedPoints, weight);
            Percentage(g) == g.gradeValue
  {
  }

  /** A grade without earned points keeps the value it was given and carries no letter. */
  lemma DirectValueHasNoLetter(studentId: int, subjectId: int, teacherId: int, gradeType: string,
                               gradeValue: Option<real>, maxPoints: real, weight: real)
    ensures var g := NewGrade(studentId, subjectId, teacherId, gradeType, gradeValue, maxPoints, None, weight);
            g.letterGrade.None? && g.gradeValue == gradeValue
  {
  }

  class Grade {
    var studentId: int
    var subjectId: int
    var teacherId: int
    var gradeType: string
    var gradeValue: Option<real>
    var letterGrade: Option<string>
    var maxPoints: real
    var earnedPoints: Option<real>
    var weight: real

    function Snap(): GradeRecord
      reads this
    {
      GradeRecord(studentId, subjectId, teacherId, gradeType, gradeValue, letterGrade, maxPoints, earnedPoints, weight)
    }

    /** `Grade.__init__`. */
    constructor (student: int, subject: int, teacher: int, kind: string, value: Option<real>, maxPts: real,
                 earned: Option<real>, w: real)
      ensures Snap() == NewGrade(student, subject, teacher, kind, value, maxPts, earned, w)
    {
      studentId := student;
      subjectId := subject;
      teacherId := teacher;
      gradeType := kind;
      gradeValue := value;
      maxPoints := maxPts;
      earnedPoints := earned;
      weight := w;
      letterGrade := None;
      if earned.Some? && maxPts > 0.0 {
        gradeValue := Some(earned.value / maxPts * 100.0);
        letterGrade := GradeLetter(Some(earned.value / maxPts * 100.0));
      }
    }
  }

  /** A published grade of the student in the academic year, with its subject's credits. */
  datatype GradeEntry = GradeEntry(value: Option<real>, credits: int)

  /** `if g.grade_value`: a missing value and a zero are both skipped in the points. */
  predicate Counted(e: GradeEntry) { e.value.Some? && e.value.value != 0.0 }

  /** The credit-weighted sum of the counted grades. */
  function GradePoints(grades: seq<GradeEntry>): real {
    if grades == [] then 0.0
    else (if Counted(grades[0]) then grades[0].value.value * grades[0].credits as real else 0.0) +
         GradePoints(grades[1..])
  }

  /** The credits of every grade, counted or not. */
  function TotalCredits(grades: seq<GradeEntry>): int {
    if grades == [] then 0 else grades[0].credits + TotalCredits(grades[1..])
  }

  /** Grades without a value or with a zero value add no points, whatever their credits. */
  lemma {:induction false} UncountedGradesGiveNoPoints(grades: seq<GradeEntry>)
    requires forall i :: 0 <= i < |grades| ==> !Counted(grades[i])
    ensures GradePoints(grades) == 0.0
  {
    if grades != [] {
      assert forall i :: 0 <= i < |grades| - 1 ==> grades[1..][i] == grades[i + 1];
      UncountedGradesGiveNoPoints(grades[1..]);
    }
  }

  /** The credit-weighted average, 0 when there are no credits. */
  function Gpa(grades: seq<GradeEntry>): (gpa: real)
    ensures TotalCredits(grades) <= 0 ==> gpa == 0.0
    ensures TotalCredits(grades) > 0 ==> gpa * TotalCredits(grades) as real == GradePoints(grades)
  {
    if TotalCredits(grades) > 0 then GradePoints(grades) / TotalCredits(grades) as real else 0.0
  }

  predicate ValidEntries(grades: seq<GradeEntry>) {
    forall i :: 0 <= i < |grades| ==>
      grades[i].credits >= 0 && (grades[i].value.Some? ==> 0.0 <= grades[i].value.value <= 100.0)
  }

  /** With valid grades and non-negative credits the points lie between 0 and 100 per credit. */
  lemma {:induction false} PointsBounded(grades: seq<GradeEntry>)
    requires ValidEntries(grades)
    ensures 0.0 <= GradePoints(grades) <= 100.0 * TotalCredits(grades) as real
    ensures TotalCredits(grades) >= 0
  {
    if grades != [] {
      assert ValidEntries(grades[1..]) by {
        assert forall i :: 0 <= i < |grades| - 1 ==> grades[1..][i] == grades[i + 1];
      }
      PointsBounded(grades[1..]);
      var c := grades[0].credits as real;
      var h := if Counted(grades[0]) then grades[0].value.value * c else 0.0;
      if Counted(grades[0]) {
        var v := grades[0].value.value;
        assert 0.0 <= v * c <= 100.0 * c by {
          assert 0.0 <= v && v <= 100.0 && 0.0 <= c;
          assert (100.0 - v) * c >= 0.0;
        }
      }
      assert GradePoints(grades) == h + GradePoints(grades[1..]);
      assert TotalCredits(grades) as real == c + TotalCredits(grades[1..]) as real;
      SumBound(h, c, GradePoints(grades[1..]), TotalCredits(grades[1..]) as real);
    }
  }

  lemma SumBound(h: real, c: real, p: real, t: real)
    requires 0.0 <= h <= 100.0 * c && 0.0 <= p <= 100.0 * t
    ensures 0.0 <= h + p <= 100.0 * (c + t)
  {
  }

  /** The GPA of valid grades is between 0 and 100. */
  lemma {:induction false} GpaBounded(grades: seq<GradeEntry>)
    requires ValidEntries(grades)
    ensures 0.0 <= Gpa(grades) <= 100.0
  {
    PointsBounded(grades);
    var c := TotalCredits(grades);
    if c > 0 {
      var gpa := Gpa(grades);
      assert gpa * c as real <= 100.0 * c as real;
    }
  }

  /** A grade without a value still adds its credits: it can only lower the GPA. */
  lemma {:induction false} UngradedLowersGpa(grades: seq<GradeEntry>, credits: int)
    requires ValidEntries(grades) && TotalCredits(grades) > 0 && credits > 0
    ensures Gpa(grades + [GradeEntry(None, credits)]) <= Gpa(grades)
  {
    var more := grades + [GradeEntry(None, credits)];
    UngradedAppend(grades, credits);
    PointsBounded(grades);
    var p := GradePoints(grades);
    var c := TotalCredits(grades);
    assert Gpa(more) == p / (c + credits) as real;
    assert Gpa(grades) == p / c as real;
    LargerDivisor(p, c as real, credits as real);
  }

  lemma LargerDivisor(p: real, c: real, k: real)
    requires p >= 0.0 && c > 0.0 && k > 0.0
    ensures p / (c + k) <= p / c
  {
    var q := p / (c + k);
    assert q * (c + k) == p;
    assert q >= 0.0;
    assert q * k >= 0.0;
    assert q * c <= p;
  }

  lemma {:induction false} UngradedAppend(grades: seq<GradeEntry>, credits: int)
    ensures GradePoints(grades + [GradeEntry(None, credits)]) == GradePoints(grades)
    ensures TotalCredits(grades + [GradeEntry(None, credits)]) == TotalCredits(grades) + credits
  {
    if grades == [] {
      assert [] + [GradeEntry(None, credits)] == [GradeEntry(None, credits)];
    } else {
      assert (grades + [GradeEntry(None, credits)])[1..] == grades[1..] + [GradeEntry(None, credits)];
      UngradedAppend(grades[1..], credits);
    }
  }

  /** `ReportCard.academic_status`: 85, 75, 65 and 50 are the lower bounds. */
  function AcademicStatus(gpa: real): (s: string)
    ensures s == "Excellent" <==> gpa >= 85.0
    ensures s == "Good" <==> 75.0 <= gpa < 85.0
    ensures s == "Satisfactory" <==> 65.0 <= gpa < 75.0
    ensures s == "Needs Improvement" <==> 50.0 <= gpa < 65.0
    ensures s == "Unsatisfactory" <==> gpa < 50.0
  {
    if gpa >= 85.0 then "Excellent"
    else if gpa >= 75.0 then "Good"
    else if gpa >= 65.0 then "Satisfactory"
    else if gpa >= 50.0 then "Needs Improvement"
    else "Unsatisfactory"
  }

  /** The stored columns of a report card that the model follows. */
  datatype CardRecord = CardRecord(id: int, studentId: int, academicYear: string, semester: string,
                                   overallGpa: real, overallGrade: Option<string>, rankInClass: Option<int>,
                                   totalStudentsInClass: Option<int>, attendancePercentage: real, totalDays: int,
                                   daysPresent: int, daysAbsent: int, isPublished: bool, publishedDay: Option<int>)

  /** `calculate_metrics`: without grades the GPA and letter stay as they were, without attendance
      records the day counts do. */
  function Metrics(c: CardRecord, grades: seq<GradeEntry>, statuses: seq<string>): (r: CardRecord)
    ensures grades != [] ==> r.overallGpa == Gpa(grades) && r.overallGrade == Some(LetterFor(Gpa(grades)))
    ensures grades == [] ==> r.overallGpa == c.overallGpa && r.overallGrade == c.overallGrade
    ensures statuses != [] ==>
              r.totalDays == |statuses| && r.daysPresent == Attendance.CountPresent(statuses) &&
              r.daysPresent + r.daysAbsent == r.totalDays &&
              r.attendancePercentage == Attendance.Percentage(Attendance.CountPresent(statuses), |statuses|)
    ensures statuses == [] ==>
              r.totalDays == c.totalDays && r.daysPresent == c.daysPresent && r.daysAbsent == c.daysAbsent &&
              r.attendancePercentage == c.attendancePercentage
    ensures r.(overallGpa := c.overallGpa, overallGrade := c.overallGrade, totalDays := c.totalDays,
               daysPresent := c.daysPresent, daysAbsent := c.daysAbsent,
               attendancePercentage := c.attendancePercentage) == c
  {
    var c1 := if grades != [] then c.(overallGpa := Gpa(grades), overallGrade := Some(LetterFor(Gpa(grades)))) else c;
    if statuses != [] then
      var present := Attendance.CountPresent(statuses);
      c1.(totalDays := |statuses|, daysPresent := present, daysAbsent := |statuses| - present,
          attendancePercentage := Attendance.Percentage(present, |statuses|))
    else c1
  }

  /** The days present and absent are never negative and together make up the days recorded. */
  lemma MetricsDaysSplit(c: CardRecord, grades: seq<GradeEntry>, statuses: seq<string>)
    requires statuses != []
    ensures var r := Metrics(c, grades, statuses);
            0 <= r.daysPresent && 0 <= r.daysAbsent && 0.0 <= r.attendancePercentage <= 100.0
  {
    Attendance.PercentageBounds(Attendance.CountPresent(statuses), |statuses|);
  }

  /** One report card of the class, as the rank query returns it. */
  datatype Ranked = Ranked(id: int, gpa: real)

  /** Ordered by GPA, best first. */
  predicate SortedByGpa(cards: seq<Ranked>) {
    forall i, j :: 0 <= i < j < |cards| ==> cards[i].gpa >= cards[j].gpa
  }

  /** The 1-based position of the first card with the id, if any. */
  function RankOf(cards: seq<Ranked>, id: int): (r: Option<int>)
    ensures r.None? <==> forall i :: 0 <= i < |cards| ==> cards[i].id != id
    ensures r.Some? ==> 1 <= r.value <= |cards| && cards[r.value - 1].id == id &&
                        forall i :: 0 <= i < r.value - 1 ==> cards[i].id != id
  {
    if cards == [] then None
    else if cards[0].id == id then Some(1)
    else match RankOf(cards[1..], id)
      case None => None
      case Some(k) => Some(k + 1)
  }

  /** In a list ordered by GPA, every card ranked ahead has at least the same GPA and every card
      ranked behind at most. */
  lemma RankFollowsGpa(cards: seq<Ranked>, id: int)
    requires SortedByGpa(cards) && RankOf(cards, id).Some?
    ensures var k := RankOf(cards, id).value;
            (forall i :: 0 <= i < k - 1 ==> cards[i].gpa >= cards[k - 1].gpa) &&
            (forall i :: k - 1 < i < |cards| ==> cards[i].gpa <= cards[k - 1].gpa)
  {
  }

  /** `calculate_rank`: only for a student in a class; the total is the number of cards, and the
      rank is left alone when the card itself is not among them. */
  function WithRank(c: CardRecord, classId: Option<int>, cards: seq<Ranked>): (r: CardRecord)
    ensures classId.None? || classId.value == 0 ==> r == c
    ensures classId.Some? && classId.value != 0 ==>
              r.totalStudentsInClass == Some(|cards|) &&
              r.rankInClass == (if RankOf(cards, c.id).Some? then RankOf(cards, c.id) else c.rankInClass) &&
              r.(totalStudentsInClass := c.totalStudentsInClass, rankInClass := c.rankInClass) == c
  {
    if classId.None? || classId.value == 0 then c
    else c.(totalStudentsInClass := Some(|cards|),
            rankInClass := if RankOf(cards, c.id).Some? then RankOf(cards, c.id) else c.rankInClass)
  }

  /** `publish`: metrics, then rank, then the published flag and date. */
  function Published(c: CardRecord, grades: seq<GradeEntry>, statuses: seq<string>, classId: Option<int>,
                     cards: seq<Ranked>, today: int): (r: CardRecord)
    ensures r.isPublished && r.publishedDay == Some(today)
    ensures r.overallGpa == Metrics(c, grades, statuses).overallGpa
    ensures r.totalDays == Metrics(c, grades, statuses).totalDays
    ensures r.(isPublished := c.isPublished, publishedDay := c.publishedDay) ==
            WithRank(Metrics(c, grades, statuses), classId, cards)
    ensures classId.Some? && classId.value != 0 ==>
              r.totalStudentsInClass == Some(|cards|) &&
              r.rankInClass == (if RankOf(cards, c.id).Some? then RankOf(cards, c.id) else c.rankInClass)
  {
    WithRank(Metrics(c, grades, statuses), classId, cards).(isPublished := true, publishedDay := Some(today))
  }

  /** Publishing again with the same inputs gives the same card. */
  lemma PublishIdempotent(c: CardRecord, grades: seq<GradeEntry>, statuses: seq<string>, classId: Option<int>,
                          cards: seq<Ranked>, today: int)
    ensures var p := Published(c, grades, statuses, classId, cards, today);
            Published(p, grades, statuses, classId, cards, today) == p
  {
  }

  class ReportCard {
    var id: int
    var studentId: int
    var academicYear: string
    var semester: string
    var overallGpa: real
    var overallGrade: Option<string>
    var rankInClass: Option<int>
    var totalStudentsInClass: Option<int>
    var attendancePercentage: real
    var totalDays: int
    var daysPresent: int
    var daysAbsent: int
    var isPublished: bool
    var publishedDay: Option<int>

    function Snap(): CardRecord
      reads this
    {
      CardRecord(id, studentId, academicYear, semester, overallGpa, overallGrade, rankInClass, totalStudentsInClass,
                 attendancePercentage, totalDays, daysPresent, daysAbsent, isPublished, publishedDay)
    }

    /** `calculate_metrics`. */
    method CalculateMetrics(grades: seq<GradeEntry>, statuses: seq<string>)
      modifies this
      ensures Snap() == Metrics(old(Snap()), grades, statuses)
    {
      if grades != [] {
        overallGpa := Gpa(grades);
        overallGrade := Some(LetterFor(overallGpa));
      }
      ghost var c1 := Snap();
      assert c1 == if grades != [] then old(Snap()).(overallGpa := Gpa(grades), overallGrade := Some(LetterFor(Gpa(grades))))
                   else old(Snap());
      if statuses != [] {
        totalDays := |statuses|;
        daysPresent := Attendance.CountPresent(statuses);
        daysAbsent := totalDays - daysPresent;
        attendancePercentage := Attendance.Percentage(daysPresent, totalDays);
      }
    }

    /** `calculate_rank`: the loop over the class's cards stops at this card's position. */
    method CalculateRank(classId: Option<int>, cards: seq<Ranked>)
      modifies this
      ensures Snap() == WithRank(old(Snap()), classId, cards)
    {
      if classId.None? || classId.value == 0 {
        return;
      }
      totalStudentsInClass := Some(|cards|);
      var i := 0;
      while i < |cards|
        invariant 0 <= i <= |cards|
        invariant forall j :: 0 <= j < i ==> cards[j].id != id
        invariant Snap() == old(Snap()).(totalStudentsInClass := Some(|cards|))
      {
        if cards[i].id == id {
          RankAt(cards, id, i);
          rankInClass := Some(i + 1);
          return;
        }
        i := i + 1;
      }
    }

    /** `publish`. */
    method Publish(grades: seq<GradeEntry>, statuses: seq<string>, classId: Option<int>, cards: seq<Ranked>,
                   today: int)
      modifies this
      ensures Snap() == Published(old(Snap()), grades, statuses, classId, cards, today)
    {
      CalculateMetrics(grades, statuses);
      CalculateRank(classId, cards);
      isPublished := true;
      publishedDay := Some(today);
    }
  }

  /** The first position holding the id gives the rank. */
  lemma RankAt(cards: seq<Ranked>, id: int, i: nat)
    requires i < |cards| && cards[i].id == id
    requires forall j :: 0 <= j < i ==> cards[j].id != id
    ensures RankOf(cards, id) == Some(i + 1)
  {
    assert RankOf(cards, id).Some?;
  }
}
