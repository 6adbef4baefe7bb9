/** The helpers of the modular back end (`app/utils/helpers.py`): the academic year and age
    computed from a date, file-name sanitising, the page-size cap, and the generation of
    student and employee numbers. The clock and the random digits are parameters. */
module Helpers {
  import opened Wrappers
  import opened Text
  import Validators

  /** A calendar date (`datetime.date`): Python keeps years in 1..9999. */
  datatype Date = Date(year: int, month: int, day: int)

  predicate ValidYear(y: int) { 1 <= y <= 9999 }

  /** `get_current_academic_year`: from August on the year that has started, before August the
      year that started last August. */
  function AcademicYearStart(today: Date): (start: int)
    ensures today.month >= 8 ==> start == today.year
    ensures today.month < 8 ==> start == today.year - 1
  {
    if today.month >= 8 then today.year else today.year - 1
  }

  function AcademicYear(today: Date): (s: string)
    requires ValidYear(today.year) && ValidYear(today.year - 1)
    ensures Split(s, '-') == [NatToDec(AcademicYearStart(today)), NatToDec(AcademicYearStart(today) + 1)]
  {
    NoDashInNumeral(AcademicYearStart(today));
    NoDashInNumeral(AcademicYearStart(today) + 1);
    SplitTwo(NatToDec(AcademicYearStart(today)), NatToDec(AcademicYearStart(today) + 1), '-');
    NatToDec(AcademicYearStart(today)) + "-" + NatToDec(AcademicYearStart(today) + 1)
  }

  /** The academic-year label splits at its dash into the start year and the year after it. */
  lemma AcademicYearParses(today: Date)
    requires ValidYear(today.year) && ValidYear(today.year - 1)
    ensures var start := AcademicYearStart(today);
            Split(AcademicYear(today), '-') == [NatToDec(start), NatToDec(start + 1)] &&
            DecToNat(NatToDec(start)) == start && DecToNat(NatToDec(start + 1)) == start + 1
  {
    var start: nat := AcademicYearStart(today);
    NoDashInNumeral(start);
    NoDashInNumeral(start + 1);
    SplitTwo(NatToDec(start), NatToDec(start + 1), '-');
    DecRoundTrip(start);
    DecRoundTrip(start + 1);
  }

  lemma NoDashInNumeral(n: nat)
    ensures '-' !in NatToDec(n)
  {
    var a := NatToDec(n);
    assert forall i :: 0 <= i < |a| ==> IsDigit(a[i]);
  }

  /** The date lies in the span from August 1 of the start year up to, not including, August 1 of
      the year after. */
  lemma AcademicYearSpan(today: Date)
    requires 1 <= today.month <= 12 && 1 <= today.day
    ensures !DateBefore(today, Date(AcademicYearStart(today), 8, 1)) &&
            DateBefore(today, Date(AcademicYearStart(today) + 1, 8, 1))
  {
  }

  /** Lexicographic order on dates. */
  predicate DateBefore(a: Date, b: Date) {
    a.year < b.year || (a.year == b.year && (a.month < b.month || (a.month == b.month && a.day < b.day)))
  }

  /** `calculate_age`: the difference of the years, one less while this year's birthday is still
      ahead; no age without a birth date. */
  function CalculateAge(birth: Option<Date>, today: Date): (age: Option<int>)
    ensures age.None? <==> birth.None?
    ensures age.Some? ==>
              age.value == today.year - birth.value.year -
                           (if DateBefore(Date(today.year, today.month, today.day),
                                          Date(today.year, birth.value.month, birth.value.day)) then 1 else 0)
  {
    match birth
    case None => None
    case Some(b) =>
      var age := today.year - b.year;
      if today.month < b.month || (today.month == b.month && today.day < b.day) then Some(age - 1) else Some(age)
  }

  /** The age counts the birthdays that have passed: the birthday of that many years is on or
      before today, the next one is after it. */
  lemma AgeCountsBirthdays(b: Date, today: Date)
    ensures var age := CalculateAge(Some(b), today).value;
            !DateBefore(today, Date(b.year + age, b.month, b.day)) &&
            DateBefore(today, Date(b.year + age + 1, b.month, b.day))
  {
  }

  /** `string.ascii_letters + string.digits + '.-_'`. */
  predicate SafeChar(c: char) { IsLetter(c) || IsDigit(c) || c == '.' || c == '-' || c == '_' }

  const MaxFilenameLength: nat := 255

  /** `sanitize_filename`: nothing for a missing or empty name; otherwise the safe characters, in
      order, cut to 255. */
  function SanitizeFilename(name: Option<string>): (r: Option<string>)
    ensures r.None? <==> name.None? || name.value == ""
    ensures r.Some? ==> |r.value| <= MaxFilenameLength && forall i :: 0 <= i < |r.value| ==> SafeChar(r.value[i])
    ensures r.Some? ==> r.value == Take(Keep(name.value, SafeChar), MaxFilenameLength)
  {
    if name.None? || name.value == "" then None
    else Some(Take(Keep(name.value, SafeChar), MaxFilenameLength))
  }

  /** `s[:n]`. */
  function Take(s: string, n: nat): (r: string)
    ensures |r| == if |s| <= n then |s| else n
    ensures r == s[..|r|]
  {
    if |s| <= n then s else s[..n]
  }

  /** Sanitising a sanitised, non-empty name changes nothing. */
  lemma SanitizeIdempotent(name: Option<string>)
    requires SanitizeFilename(name).Some? && SanitizeFilename(name).value != ""
    ensures SanitizeFilename(SanitizeFilename(name)) == SanitizeFilename(name)
  {
  }

  /** A name whose safe characters are all dropped sanitises to the empty string, and that one to
      nothing. */
  lemma SanitizeCanVanish()
    ensures SanitizeFilename(Some("$$")) == Some("")
    ensures SanitizeFilename(Some("")) == None
  {
    assert Keep("$$", SafeChar) == [];
  }

  const MaxPerPage: int := 100

  /** `min(per_page, max_per_page)`: an upper cap and nothing else. */
  function CapPerPage(perPage: int, maxPerPage: int): (r: int)
    ensures r <= maxPerPage && r <= perPage
    ensures r == perPage || r == maxPerPage
  {
    if perPage < maxPerPage then perPage else maxPerPage
  }

  /** Only the upper end is capped: a zero or negative page size passes through. */
  lemma PerPageHasNoLowerBound(perPage: int)
    requires perPage <= MaxPerPage
    ensures CapPerPage(perPage, MaxPerPage) == perPage
  {
  }

  /** `str(current_year)[-2:]`: the last two digits of the year. */
  function YearCode(year: nat): (r: string)
    ensures |r| <= 2 && r != [] && AllDigits(r)
    ensures year >= 10 ==> |r| == 2
    ensures DecToNat(r) == year % 100
  {
    var s := NatToDec(year);
    LastTwoDigits(year);
    if |s| <= 2 then s else s[|s| - 2..]
  }

  /** The last character of a numeral is the digit of the units. */
  lemma LastDigit(m: nat)
    ensures NatToDec(m)[|NatToDec(m)| - 1] == DigitChar(m % 10)
  {
  }

  /** Two digits read as tens and units. */
  lemma TwoDigitValue(t: string)
    requires |t| == 2 && AllDigits(t)
    ensures DecToNat(t) == DigitValue(t[0]) * 10 + DigitValue(t[1])
  {
    var h := t[..1];
    assert h[..0] == [] && h[0] == t[0];
    assert DecToNat(h) == DigitValue(t[0]);
    assert DecToNat(t) == DecToNat(h) * 10 + DigitValue(t[1]);
  }

  lemma {:induction false} LastTwoDigits(n: nat)
    ensures var s := NatToDec(n);
            (n >= 10 ==> |s| >= 2) && DecToNat(if |s| <= 2 then s else s[|s| - 2..]) == n % 100
  {
    var s := NatToDec(n);
    if n < 10 {
      assert s == [DigitChar(n)];
      assert s[..0] == [];
    } else {
      var t := NatToDec(n / 10);
      var a, b := (n / 10) % 10, n % 10;
      assert s == t + [DigitChar(b)];
      LastDigit(n / 10);
      var u := if |s| <= 2 then s else s[|s| - 2..];
      assert u == [DigitChar(a), DigitChar(b)];
      TwoDigitValue(u);
      assert DigitValue(DigitChar(a)) == a && DigitValue(DigitChar(b)) == b;
      HundredsRemainder(n);
    }
  }

  /** The tens and the units of a number are its remainder by one hundred. */
  lemma HundredsRemainder(n: nat)
    ensures (n / 10) % 10 * 10 + n % 10 == n % 100
  {
    var q, r := n / 10, n % 10;
    var p, t := q / 10, q % 10;
    assert n == 100 * p + (10 * t + r);
    assert 0 <= 10 * t + r < 100;
  }

  /** Four random digits drawn with `random.choices(string.digits, k=4)`. */
  predicate IsDraw(d: string) { |d| == 4 && AllDigits(d) }

  /** A student or employee number: the prefix, the year code and one draw. */
  function FormatId(prefix: string, year: nat, draw: string): (id: string)
    ensures |id| == |prefix| + |YearCode(year)| + |draw|
    ensures id[..|prefix|] == prefix && id[|id| - |draw|..] == draw
  {
    prefix + YearCode(year) + draw
  }

  /** Two draws give the same number only if they are the same draw. */
  lemma FormatIdInjective(prefix: string, year: nat, d1: string, d2: string)
    requires IsDraw(d1) && IsDraw(d2) && d1 != d2
    ensures FormatId(prefix, year, d1) != FormatId(prefix, year, d2)
  {
  }

  /** The index of the first draw that gives a number not yet taken, or `|draws|`. */
  function FirstFree(prefix: string, year: nat, draws: seq<string>, taken: set<string>): (k: nat)
    ensures k <= |draws|
    ensures k < |draws| ==> FormatId(prefix, year, draws[k]) !in taken
    ensures forall j :: 0 <= j < k ==> FormatId(prefix, year, draws[j]) in taken
  {
    if draws == [] then 0
    else if FormatId(prefix, year, draws[0]) !in taken then 0
    else 1 + FirstFree(prefix, year, draws[1..], taken)
  }

  /** `generate_student_id` / `generate_employee_id`: draw again while the number is taken. The
      random source is the given sequence of draws; when it runs out before a free number is found,
      there is no result (the source would keep drawing). */
  method GenerateId(prefix: string, year: nat, draws: seq<string>, taken: set<string>) returns (id: Option<string>)
    requires forall j :: 0 <= j < |draws| ==> IsDraw(draws[j])
    ensures id.Some? <==> FirstFree(prefix, year, draws, taken) < |draws|
    ensures id.Some? ==> id.value !in taken && id.value == FormatId(prefix, year, draws[FirstFree(prefix, year, draws, taken)])
  {
    if draws == [] {
      return None;
    }
    var k := 0;
    var candidate := FormatId(prefix, year, draws[0]);
    while candidate in taken
      invariant 0 <= k < |draws|
      invariant candidate == FormatId(prefix, year, draws[k])
      invariant forall j :: 0 <= j < k ==> FormatId(prefix, year, draws[j]) in taken
      decreases |draws| - k
    {
      if k + 1 == |draws| {
        FirstFreeAllTaken(prefix, year, draws, taken);
        return None;
      }
      k := k + 1;
      candidate := FormatId(prefix, year, draws[k]);
    }
    FirstFreeIs(prefix, year, draws, taken, k);
    id := Some(candidate);
  }

  lemma {:induction false} FirstFreeIs(prefix: string, year: nat, draws: seq<string>, taken: set<string>, k: nat)
    requires k < |draws| && FormatId(prefix, year, draws[k]) !in taken
    requires forall j :: 0 <= j < k ==> FormatId(prefix, year, draws[j]) in taken
    ensures FirstFree(prefix, year, draws, taken) == k
  {
    if k > 0 {
      assert forall j :: 0 <= j < k - 1 ==> draws[1..][j] == draws[j + 1];
      FirstFreeIs(prefix, year, draws[1..], taken, k - 1);
    }
  }

  lemma FirstFreeAllTaken(prefix: string, year: nat, draws: seq<string>, taken: set<string>)
    requires forall j :: 0 <= j < |draws| ==> FormatId(prefix, year, draws[j]) in taken
    ensures FirstFree(prefix, year, draws, taken) == |draws|
  {
  }

  /** A student number drawn in a four-digit year is `ST`, two year digits and four drawn digits,
      and passes `validate_student_id`; an employee number likewise with `EMP` and
      `validate_employee_id`. */
  lemma GeneratedIdsAreValid(year: nat, draw: string)
    requires 1000 <= year <= 9999 && IsDraw(draw)
    ensures |FormatId("ST", year, draw)| == 8 && Validators.ValidateStudentId(FormatId("ST", year, draw)).Valid?
    ensures |FormatId("EMP", year, draw)| == 9 && Validators.ValidateEmployeeId(FormatId("EMP", year, draw)).Valid?
  {
    assert Pow10(3) == 1000 && Pow10(4) == 10000 by {
      assert Pow10(1) == 10 && Pow10(2) == 100;
    }
    DecLength(year, 4);
    var yc := YearCode(year);
    assert |yc| == 2;
    var st := FormatId("ST", year, draw);
    assert forall i :: 0 <= i < |st| ==> Validators.IsIdChar(st[i]) by {
      forall i | 0 <= i < |st|
        ensures Validators.IsIdChar(st[i])
      {
        if i >= 4 { assert st[i] == draw[i - 4]; }
        else if i >= 2 { assert st[i] == yc[i - 2]; }
      }
    }
    var emp := FormatId("EMP", year, draw);
    assert forall i :: 0 <= i < |emp| ==> Validators.IsIdChar(emp[i]) by {
      forall i | 0 <= i < |emp|
        ensures Validators.IsIdChar(emp[i])
      {
        if i >= 5 { assert emp[i] == draw[i - 5]; }
        else if i >= 3 { assert emp[i] == yc[i - 3]; }
      }
    }
  }
}
