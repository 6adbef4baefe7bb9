/** The display helpers of the EduManage front end: capitalisation, truncation, grade and
    attendance badges, phone-number and student-id formatting. A falsy string argument is the
    empty string; the case mappings are those of module Text (ASCII letters only). */
module Formatters {
  import opened Text

  // ---------------------------------------------------------------- capitalisation

  /** `capitalizeFirst`: the first character upper-cased, the rest lower-cased. */
  function CapitalizeFirst(s: string): (r: string)
    ensures |r| == |s|
    ensures s != [] ==> r[0] == UpperChar(s[0])
    ensures forall i :: 1 <= i < |s| ==> r[i] == LowerChar(s[i])
  {
    if s == [] then "" else [UpperChar(s[0])] + Lower(s[1..])
  }

  lemma UpperLowerChar(c: char)
    ensures UpperChar(UpperChar(c)) == UpperChar(c)
    ensures LowerChar(UpperChar(c)) == LowerChar(c)
    ensures UpperChar(LowerChar(c)) == UpperChar(c)
  {
  }

  /** Capitalising twice is capitalising once. */
  lemma CapitalizeFirstIdempotent(s: string)
    ensures CapitalizeFirst(CapitalizeFirst(s)) == CapitalizeFirst(s)
  {
    if s != [] {
      UpperLowerChar(s[0]);
      LowerIdempotent(s[1..]);
    }
  }

  /** Capitalising changes only the case of letters. */
  lemma CapitalizeFirstCase(s: string)
    ensures Lower(CapitalizeFirst(s)) == Lower(s)
  {
    if s != [] {
      UpperLowerChar(s[0]);
    }
  }

  /** Capitalising never creates or removes a space. */
  lemma CapitalizeFirstSpaces(s: string, c: char)
    requires !IsLetter(c)
    ensures c in CapitalizeFirst(s) <==> c in s
  {
    var r := CapitalizeFirst(s);
    forall i | 0 <= i < |s|
      ensures r[i] == c <==> s[i] == c
    {
    }
    if c in s {
      var i :| 0 <= i < |s| && s[i] == c;
      assert r[i] == c;
    }
    if c in r {
      var i :| 0 <= i < |r| && r[i] == c;
      assert s[i] == c;
    }
  }

  /** `parts.map(capitalizeFirst)`. */
  function CapitalizeAll(parts: seq<string>): (r: seq<string>)
    ensures |r| == |parts|
    ensures forall k :: 0 <= k < |r| ==> r[k] == CapitalizeFirst(parts[k])
  {
    if parts == [] then [] else [CapitalizeFirst(parts[0])] + CapitalizeAll(parts[1..])
  }

  /** `capitalizeWords`: every space-separated word capitalised, the spaces kept. */
  function CapitalizeWords(s: string): string {
    if s == [] then "" else Join(CapitalizeAll(Split(s, ' ')), " ")
  }

  lemma LowerAppend(a: string, b: string)
    ensures Lower(a + b) == Lower(a) + Lower(b)
  {
    var l := Lower(a + b);
    assert forall i :: 0 <= i < |a| ==> l[i] == (Lower(a) + Lower(b))[i];
    assert forall i :: |a| <= i < |a| + |b| ==> l[i] == (Lower(a) + Lower(b))[i];
  }

  lemma {:induction false} LowerJoinCapitalized(parts: seq<string>)
    ensures Lower(Join(CapitalizeAll(parts), " ")) == Lower(Join(parts, " "))
  {
    if |parts| == 1 {
      CapitalizeFirstCase(parts[0]);
    } else if |parts| > 1 {
      var caps := CapitalizeAll(parts);
      assert caps[1..] == CapitalizeAll(parts[1..]);
      LowerJoinCapitalized(parts[1..]);
      LowerAppend(caps[0] + " ", Join(caps[1..], " "));
      LowerAppend(caps[0], " ");
      LowerAppend(parts[0] + " ", Join(parts[1..], " "));
      LowerAppend(parts[0], " ");
      CapitalizeFirstCase(parts[0]);
    }
  }

  /** Joining the pieces of a split gives the string back. */
  lemma {:induction false} JoinSplitFrom(s: string, sep: char, current: string)
    requires sep !in current
    ensures Join(SplitFrom(s, sep, current), [sep]) == current + s
    decreases |s|
  {
    if s == [] {
      assert current + s == current;
    } else if s[0] == sep {
      var rest := SplitFrom(s[1..], sep, []);
      JoinSplitFrom(s[1..], sep, []);
      assert ([current] + rest)[1..] == rest;
      assert [] + s[1..] == s[1..];
      assert current + [sep] + s[1..] == current + s;
    } else {
      JoinSplitFrom(s[1..], sep, current + [s[0]]);
      assert current + [s[0]] + s[1..] == current + s;
    }
  }

  /** Splitting a join of space-free pieces gives the pieces back. */
  lemma {:induction false} SplitJoin(parts: seq<string>, sep: char)
    requires |parts| >= 1
    requires forall k :: 0 <= k < |parts| ==> sep !in parts[k]
    ensures Split(Join(parts, [sep]), sep) == parts
  {
    if |parts| == 1 {
      SplitFromNoSep(parts[0], sep, []);
      assert [] + parts[0] == parts[0];
    } else {
      var tail := Join(parts[1..], [sep]);
      SplitJoin(parts[1..], sep);
      SplitFromConcat(parts[0], tail, sep, []);
      assert [] + parts[0] == parts[0];
      assert [parts[0]] + parts[1..] == parts;
    }
  }

  /** capitalizeWords changes only the case of letters, so it keeps the length and every space. */
  lemma CapitalizeWordsCase(s: string)
    ensures Lower(CapitalizeWords(s)) == Lower(s)
    ensures |CapitalizeWords(s)| == |s|
  {
    if s != [] {
      LowerJoinCapitalized(Split(s, ' '));
      JoinSplitFrom(s, ' ', []);
      assert [] + s == s;
    }
  }

  /** The words of the result are the capitalised words of the input. */
  lemma CapitalizeWordsWords(s: string)
    requires s != []
    ensures Split(CapitalizeWords(s), ' ') == CapitalizeAll(Split(s, ' '))
  {
    var caps := CapitalizeAll(Split(s, ' '));
    forall k | 0 <= k < |caps|
      ensures ' ' !in caps[k]
    {
      CapitalizeFirstSpaces(Split(s, ' ')[k], ' ');
    }
    SplitJoin(caps, ' ');
  }

  /** Capitalising the words twice is capitalising them once. */
  lemma CapitalizeWordsIdempotent(s: string)
    ensures CapitalizeWords(CapitalizeWords(s)) == CapitalizeWords(s)
  {
    if s != [] {
      var r := CapitalizeWords(s);
      CapitalizeWordsCase(s);
      CapitalizeWordsWords(s);
      var caps := CapitalizeAll(Split(s, ' '));
      var again := CapitalizeAll(caps);
      forall k | 0 <= k < |caps|
        ensures again[k] == caps[k]
      {
        CapitalizeFirstIdempotent(Split(s, ' ')[k]);
      }
      assert again == caps;
    }
  }

  // ---------------------------------------------------------------- truncation

  const DefaultMaxLength := 100
  const DefaultSuffix := "..."

  /** `piece` sits at position p of `s` with nothing but whitespace around it. */
  predicate SpaceFramed(s: string, piece: string, p: int) {
    OccursAt(s, piece, p) && (forall i :: 0 <= i < p ==> IsSpace(s[i])) &&
    (forall i :: p + |piece| <= i < |s| ==> IsSpace(s[i]))
  }

  /** `piece` is `s` with its leading and trailing whitespace dropped, when it is empty or starts
      and ends with a visible character. */
  predicate FramedIn(s: string, piece: string) {
    exists p :: 0 <= p <= |s| && SpaceFramed(s, piece, p)
  }

  /** `truncateText(text, maxLength, suffix)`: a text longer than maxLength is cut to its first
      maxLength characters (none when maxLength is negative, as `substring` clamps), trimmed, and
      the suffix appended. */
  function Truncate(text: string, maxLength: int, suffix: string): (r: string)
    ensures text == [] || |text| <= maxLength ==> r == text
    ensures text != [] && |text| > maxLength ==>
      var n := if maxLength < 0 then 0 else maxLength;
      var k := |r| - |suffix|;
      0 <= k <= n && r[k..] == suffix && FramedIn(text[..n], r[..k]) &&
      (k > 0 ==> !IsSpace(r[0]) && !IsSpace(r[k - 1]))
  {
    if text == [] || |text| <= maxLength then text
    else
      var n := if maxLength < 0 then 0 else maxLength;
      var front := TrimStart(text[..n]);
      var kept := TrimEnd(front);
      var p := n - |front|;
      assert OccursAt(text[..n], kept, p);
      forall i | p + |kept| <= i < n
        ensures IsSpace(text[..n][i])
      {
        assert text[..n][i] == front[i - p];
      }
      assert SpaceFramed(text[..n], kept, p);
      assert (kept + suffix)[..|kept|] == kept;
      kept + suffix
  }

  /** `truncateText(text)` with its defaults: at most 103 characters, and a cut text ends in "...". */
  function TruncateText(text: string): (r: string)
    ensures |r| <= DefaultMaxLength + |DefaultSuffix|
    ensures |text| <= DefaultMaxLength ==> r == text
    ensures |text| > DefaultMaxLength ==> |r| >= |DefaultSuffix| && r[|r| - |DefaultSuffix|..] == DefaultSuffix &&
                                          FramedIn(text[..DefaultMaxLength], r[..|r| - |DefaultSuffix|])
  {
    Truncate(text, DefaultMaxLength, DefaultSuffix)
  }

  // ---------------------------------------------------------------- grade colours

  datatype Tone = Gray | Green | Blue | Yellow | Orange | Red

  const GrayClasses := "text-gray-600 bg-gray-100 dark:bg-gray-900 dark:text-gray-200"
  const GreenClasses := "text-green-600 bg-green-100 dark:bg-green-900 dark:text-green-200"
  const BlueClasses := "text-blue-600 bg-blue-100 dark:bg-blue-900 dark:text-blue-200"
  const YellowClasses := "text-yellow-600 bg-yellow-100 dark:bg-yellow-900 dark:text-yellow-200"
  const OrangeClasses := "text-orange-600 bg-orange-100 dark:bg-orange-900 dark:text-orange-200"
  const RedClasses := "text-red-600 bg-red-100 dark:bg-red-900 dark:text-red-200"

  /** The Tailwind classes of a tone. */
  function ToneClasses(t: Tone): string {
    match t
    case Gray => GrayClasses
    case Green => GreenClasses
    case Blue => BlueClasses
    case Yellow => YellowClasses
    case Orange => OrangeClasses
    case Red => RedClasses
  }

  /** The tone `getGradeColor` picks: by the first letter of the upper-cased grade. */
  function GradeTone(grade: string): (t: Tone)
    ensures t == Green <==> grade != [] && UpperChar(grade[0]) == 'A'
    ensures t == Blue <==> grade != [] && UpperChar(grade[0]) == 'B'
    ensures t == Yellow <==> grade != [] && UpperChar(grade[0]) == 'C'
    ensures t == Orange <==> grade != [] && UpperChar(grade[0]) == 'D'
    ensures t == Red <==> grade != [] && UpperChar(grade[0]) == 'F'
    ensures t == Gray <==> grade == [] || UpperChar(grade[0]) !in "ABCDF"
  {
    if grade == [] then Gray
    else
      var g := Upper(grade);
      if StartsWith(g, "A") then Green
      else if StartsWith(g, "B") then Blue
      else if StartsWith(g, "C") then Yellow
      else if StartsWith(g, "D") then Orange
      else if StartsWith(g, "F") then Red
      else Gray
  }

  /** `getGradeColor`. */
  function GradeColor(grade: string): (c: string)
    ensures grade != [] && UpperChar(grade[0]) == 'A' ==> c == GreenClasses
    ensures grade != [] && UpperChar(grade[0]) == 'B' ==> c == BlueClasses
    ensures grade != [] && UpperChar(grade[0]) == 'C' ==> c == YellowClasses
    ensures grade != [] && UpperChar(grade[0]) == 'D' ==> c == OrangeClasses
    ensures grade != [] && UpperChar(grade[0]) == 'F' ==> c == RedClasses
    ensures grade == [] || UpperChar(grade[0]) !in "ABCDF" ==> c == GrayClasses
  {
    ToneClasses(GradeTone(grade))
  }

  /** The colour ignores case and everything after the first character. */
  lemma GradeColorFirstLetter(a: string, b: string)
    requires a != [] && b != [] && UpperChar(a[0]) == UpperChar(b[0])
    ensures GradeColor(a) == GradeColor(b)
  {
  }

  lemma {:induction false} GradeColorCaseInsensitive(grade: string)
    ensures GradeColor(Lower(grade)) == GradeColor(grade)
    ensures GradeColor(Upper(grade)) == GradeColor(grade)
  {
    if grade != [] {
      UpperLowerChar(grade[0]);
    }
  }

  // ---------------------------------------------------------------- attendance badge

  datatype Badge = Badge(color: string, caption: string)

  const Excellent := Badge("text-green-600", "Excellent")
  const Good := Badge("text-blue-600", "Good")
  const Average := Badge("text-yellow-600", "Average")
  const BelowAverage := Badge("text-orange-600", "Below Average")
  const Poor := Badge("text-red-600", "Poor")

  /** `getAttendanceStatus`: thresholds 95, 90, 85 and 75 per cent. */
  function AttendanceStatus(percentage: real): (b: Badge)
    ensures b == Excellent <==> percentage >= 95.0
    ensures b == Good <==> 90.0 <= percentage < 95.0
    ensures b == Average <==> 85.0 <= percentage < 90.0
    ensures b == BelowAverage <==> 75.0 <= percentage < 85.0
    ensures b == Poor <==> percentage < 75.0
  {
    if percentage >= 95.0 then Excellent
    else if percentage >= 90.0 then Good
    else if percentage >= 85.0 then Average
    else if percentage >= 75.0 then BelowAverage
    else Poor
  }

  /** The position of a badge from Poor (0) to Excellent (4). */
  function BadgeRank(b: Badge): nat {
    if b == Excellent then 4
    else if b == Good then 3
    else if b == Average then 2
    else if b == BelowAverage then 1
    else 0
  }

  /** A higher percentage never earns a lower badge. */
  lemma AttendanceMonotone(p: real, q: real)
    requires p <= q
    ensures BadgeRank(AttendanceStatus(p)) <= BadgeRank(AttendanceStatus(q))
  {
  }

  // ---------------------------------------------------------------- phone numbers

  /** The ten-digit layout "(AAA) BBB-CCCC" of the digits `c`. */
  function TenDigitForm(c: string): (r: string)
    requires |c| == 10 && AllDigitsOrEmpty(c)
    ensures DigitsOf(r) == c
    ensures |r| == 14 && r[0] == '(' && r[4] == ')' && r[5] == ' ' && r[9] == '-'
  {
    var r := "(" + c[..3] + ") " + c[3..6] + "-" + c[6..];
    PunctuationDigits();
    PhoneDigits("(", c[..3], ") ", c[3..6], "-", c[6..]);
    assert c[..3] + c[3..6] + c[6..] == c;
    r
  }

  /** The eleven-digit layout "+1 (AAA) BBB-CCCC" of the digits `c`, which start with 1. */
  function ElevenDigitForm(c: string): (r: string)
    requires |c| == 11 && c[0] == '1' && AllDigitsOrEmpty(c)
    ensures DigitsOf(r) == c
    ensures |r| == 17 && r[..4] == "+1 (" && r[7] == ')' && r[8] == ' ' && r[12] == '-'
  {
    var r := "+1 (" + c[1..4] + ") " + c[4..7] + "-" + c[7..];
    PunctuationDigits();
    PhoneDigits("+1 (", c[1..4], ") ", c[4..7], "-", c[7..]);
    assert "1" + c[1..4] + c[4..7] + c[7..] == c;
    r
  }

  /** `formatPhoneNumber`: ten digits print as "(AAA) BBB-CCCC", eleven digits led by a 1 as
      "+1 (AAA) BBB-CCCC"; any other input comes back as it was. */
  function FormatPhone(phone: string): (r: string)
    ensures DigitsOf(r) == DigitsOf(phone)
    ensures |DigitsOf(phone)| == 10 ==> |r| == 14 && r[0] == '(' && r[4] == ')' && r[5] == ' ' && r[9] == '-'
    ensures |DigitsOf(phone)| == 11 && DigitsOf(phone)[0] == '1' ==>
      |r| == 17 && r[..4] == "+1 (" && r[7] == ')' && r[8] == ' ' && r[12] == '-'
    ensures !(|DigitsOf(phone)| == 10 || (|DigitsOf(phone)| == 11 && DigitsOf(phone)[0] == '1')) ==> r == phone
  {
    if phone == [] then ""
    else
      var c := DigitsOf(phone);
      if |c| == 10 then TenDigitForm(c)
      else if |c| == 11 && c[0] == '1' then ElevenDigitForm(c)
      else phone
  }

  /** The digits of a formatted number are those of its pieces. */
  lemma PhoneDigits(p1: string, a: string, p2: string, b: string, p3: string, z: string)
    requires AllDigitsOrEmpty(a) && AllDigitsOrEmpty(b) && AllDigitsOrEmpty(z)
    requires DigitsOf(p2) == [] && DigitsOf(p3) == []
    ensures DigitsOf(p1 + a + p2 + b + p3 + z) == DigitsOf(p1) + a + b + z
  {
    KeepAppend(p1 + a + p2 + b + p3, z, IsDigit);
    KeepAppend(p1 + a + p2 + b, p3, IsDigit);
    KeepAppend(p1 + a + p2, b, IsDigit);
    KeepAppend(p1 + a, p2, IsDigit);
    KeepAppend(p1, a, IsDigit);
  }

  /** The digits of the punctuation `formatPhoneNumber` inserts. */
  lemma PunctuationDigits()
    ensures DigitsOf("(") == [] && DigitsOf(") ") == [] && DigitsOf("-") == []
    ensures DigitsOf("+1 (") == "1"
  {
    var p := "+1 (";
    assert p[0] == '+' && p[1..] == "1 (" && "1 ("[1..] == " (" && " ("[1..] == "(";
    assert Keep("(", IsDigit) == [];
    assert Keep(" (", IsDigit) == [];
    assert Keep("1 (", IsDigit) == "1";
    assert ") "[1..] == " ";
    assert Keep(") ", IsDigit) == [];
  }

  predicate AllDigitsOrEmpty(s: string) {
    forall i :: 0 <= i < |s| ==> IsDigit(s[i])
  }

  /** Formatting a formatted number changes nothing. */
  lemma FormatPhoneIdempotent(phone: string)
    ensures FormatPhone(FormatPhone(phone)) == FormatPhone(phone)
  {
  }

  // ---------------------------------------------------------------- student ids

  /** `formatStudentId`: the id upper-cased. */
  function FormatStudentId(id: string): (r: string)
    ensures |r| == |id|
    ensures forall i :: 0 <= i < |r| ==> !IsLower(r[i])
    ensures Lower(r) == Lower(id)
  {
    if id == [] then ""
    else
      var r := Upper(id);
      assert forall i :: 0 <= i < |id| ==> LowerChar(r[i]) == LowerChar(id[i]);
      r
  }

  lemma FormatStudentIdIdempotent(id: string)
    ensures FormatStudentId(FormatStudentId(id)) == FormatStudentId(id)
  {
  }
}
