/** The request validators of the modular back end (`app/utils/validators.py`). Each returns a
    verdict: valid, or invalid with the message the API sends back. The e-mail and date
    validators rest on foreign libraries and are not part of this model. */
module Validators {
  import opened Wrappers
  import opened Text

  /** The start of the message naming the missing fields. */
  const MissingPrefix := "Missing required fields: "

  datatype Verdict = Valid | Invalid(message: string)

  /** The special characters of the password rule: ``!@#$%^&*(),.?":{}|<>``. */
  const SpecialChars: set<char> := {'!', '@', '#', '$', '%', '^', '&', '*', '(', ')', ',', '.', '?', '"',
                                    ':', '{', '}', '|', '<', '>'}

  predicate HasUpper(s: string) { exists i :: 0 <= i < |s| && IsUpper(s[i]) }
  predicate HasLower(s: string) { exists i :: 0 <= i < |s| && IsLower(s[i]) }
  predicate HasDigit(s: string) { exists i :: 0 <= i < |s| && IsDigit(s[i]) }
  predicate HasSpecial(s: string) { exists i :: 0 <= i < |s| && s[i] in SpecialChars }

  /** `validate_password`: the rules are checked in order and the first one broken names the message. */
  function ValidatePassword(p: string): (v: Verdict)
    ensures v.Valid? <==> |p| >= 8 && HasUpper(p) && HasLower(p) && HasDigit(p) && HasSpecial(p)
    ensures |p| < 8 ==> v == Invalid("Password must be at least 8 characters long")
    ensures |p| >= 8 && !HasUpper(p) ==> v == Invalid("Password must contain at least one uppercase letter")
    ensures |p| >= 8 && HasUpper(p) && !HasLower(p) ==>
              v == Invalid("Password must contain at least one lowercase letter")
    ensures |p| >= 8 && HasUpper(p) && HasLower(p) && !HasDigit(p) ==>
              v == Invalid("Password must contain at least one digit")
    ensures |p| >= 8 && HasUpper(p) && HasLower(p) && HasDigit(p) && !HasSpecial(p) ==>
              v == Invalid("Password must contain at least one special character")
  {
    if |p| < 8 then Invalid("Password must be at least 8 characters long")
    else if !HasUpper(p) then Invalid("Password must contain at least one uppercase letter")
    else if !HasLower(p) then Invalid("Password must contain at least one lowercase letter")
    else if !HasDigit(p) then Invalid("Password must contain at least one digit")
    else if !HasSpecial(p) then Invalid("Password must contain at least one special character")
    else Valid
  }

  /** `validate_phone`: a missing or empty number is fine; otherwise 10 to 15 digits, whatever
      else it contains. */
  function ValidatePhone(phone: Option<string>): (v: Verdict)
    ensures phone.None? || phone == Some("") ==> v == Valid
    ensures phone.Some? && phone.value != "" ==>
              (v.Valid? <==> 10 <= |DigitsOf(phone.value)| <= 15)
    ensures v.Invalid? ==> v.message == "Phone number must be between 10 and 15 digits"
  {
    if phone.None? || phone.value == "" then Valid
    else
      var digits := DigitsOf(phone.value);
      if |digits| < 10 || |digits| > 15 then Invalid("Phone number must be between 10 and 15 digits")
      else Valid
  }

  /** Separators do not count: inserting non-digits into a phone number never changes its verdict. */
  lemma {:induction false} PhoneIgnoresSeparators(a: string, sep: string, b: string)
    requires forall i :: 0 <= i < |sep| ==> !IsDigit(sep[i])
    requires a + b != ""
    ensures ValidatePhone(Some(a + sep + b)) == ValidatePhone(Some(a + b))
  {
    KeepAppend(a + sep, b, IsDigit);
    KeepAppend(a, sep, IsDigit);
    KeepAppend(a, b, IsDigit);
    NoDigitsKept(sep);
    assert a + sep + b != "" by {
      assert |a + sep + b| >= |a + b|;
    }
  }

  lemma {:induction false} NoDigitsKept(s: string)
    requires forall i :: 0 <= i < |s| ==> !IsDigit(s[i])
    ensures Keep(s, IsDigit) == []
  {
    if s != [] {
      assert forall i :: 0 <= i < |s| - 1 ==> s[1..][i] == s[i + 1];
      NoDigitsKept(s[1..]);
    }
  }

  /** What `float(grade_value)` makes of the value: a number, or a failure to convert. */
  datatype GradeInput = Number(value: real) | NotANumber

  /** `validate_grade_value`. */
  function ValidateGradeValue(g: GradeInput): (v: Verdict)
    ensures v.Valid? <==> g.Number? && 0.0 <= g.value <= 100.0
    ensures g.NotANumber? ==> v == Invalid("Grade must be a valid number")
    ensures g.Number? && v.Invalid? ==> v == Invalid("Grade must be between 0 and 100")
  {
    match g
    case NotANumber => Invalid("Grade must be a valid number")
    case Number(x) => if 0.0 <= x <= 100.0 then Valid else Invalid("Grade must be between 0 and 100")
  }

  /** A request field: JSON `null`, or a value given by its `str()`. */
  datatype FieldValue = Null | Present(text: string)

  /** Absent, `None`, or blank after stripping: by `Text.TrimEmptyIff`, nothing but whitespace. */
  predicate IsMissing(data: map<string, FieldValue>, field: string) {
    field !in data || data[field].Null? || forall i :: 0 <= i < |data[field].text| ==> IsSpace(data[field].text[i])
  }

  /** The required fields that are missing, in the order they were asked for. */
  function MissingFields(data: map<string, FieldValue>, required: seq<string>): (m: seq<string>)
    ensures |m| <= |required|
    ensures forall f :: f in m <==> f in required && IsMissing(data, f)
  {
    if required == [] then []
    else (if IsMissing(data, required[0]) then [required[0]] else []) + MissingFields(data, required[1..])
  }

  /** `validate_required_fields`: the loop collects the missing fields, and the message lists them
      all, comma-separated. */
  method ValidateRequiredFields(data: map<string, FieldValue>, required: seq<string>) returns (v: Verdict)
    ensures v.Valid? <==> forall f :: f in required ==> !IsMissing(data, f)
    ensures v == if MissingFields(data, required) == [] then Valid
                 else Invalid(MissingPrefix + Join(MissingFields(data, required), ", "))
  {
    var missing := CollectMissing(data, required);
    NoneMissingIff(data, required);
    if missing != [] {
      return Invalid(MissingPrefix + Join(missing, ", "));
    }
    v := Valid;
  }

  /** The loop of `validate_required_fields` that appends each missing field in turn. */
  method CollectMissing(data: map<string, FieldValue>, required: seq<string>) returns (missing: seq<string>)
    ensures missing == MissingFields(data, required)
  {
    missing := [];
    var i := 0;
    while i < |required|
      invariant 0 <= i <= |required|
      invariant missing == MissingFields(data, required[..i])
    {
      MissingFieldsAppend(data, required[..i], required[i]);
      assert required[..i + 1] == required[..i] + [required[i]];
      if IsMissing(data, required[i]) {
        missing := missing + [required[i]];
      } else {
        assert missing + [] == missing;
      }
      i := i + 1;
    }
    assert required[..i] == required;
  }

  /** The list of missing fields is empty exactly when every required field is present. */
  lemma NoneMissingIff(data: map<string, FieldValue>, required: seq<string>)
    ensures MissingFields(data, required) == [] <==> forall f :: f in required ==> !IsMissing(data, f)
  {
    var m := MissingFields(data, required);
    if m != [] {
      assert m[0] in m;
    }
  }

  /** The missing fields of a list with one more field at the end. */
  lemma {:induction false} MissingFieldsAppend(data: map<string, FieldValue>, required: seq<string>, field: string)
    ensures MissingFields(data, required + [field]) ==
            MissingFields(data, required) + (if IsMissing(data, field) then [field] else [])
  {
    if required == [] {
      assert [] + [field] == [field];
      assert [field][1..] == [];
    } else {
      assert (required + [field])[0] == required[0];
      assert (required + [field])[1..] == required[1..] + [field];
      MissingFieldsAppend(data, required[1..], field);
    }
  }

  /** `validate_enum_value`. */
  function ValidateEnumValue(value: string, allowed: seq<string>, fieldName: string): (v: Verdict)
    ensures v.Valid? <==> value in allowed
    ensures v.Invalid? ==> v.message == fieldName + " must be one of: " + Join(allowed, ", ")
  {
    if value !in allowed then Invalid(fieldName + " must be one of: " + Join(allowed, ", ")) else Valid
  }

  predicate IsIdChar(c: char) { IsUpper(c) || IsDigit(c) }

  predicate AllIdChars(s: string) { forall i :: 0 <= i < |s| ==> IsIdChar(s[i]) }

  /** `re.match(r'^[A-Z0-9]+$', s)` as Python evaluates it: `$` also matches just before a final
      newline, so one trailing `\n` slips through. */
  predicate MatchesIdPatternAsWritten(s: string)
    ensures s != [] && AllIdChars(s) ==> MatchesIdPatternAsWritten(s)
    ensures MatchesIdPatternAsWritten(s) ==> s != [] && AllIdChars(s[..|s| - 1])
    ensures MatchesIdPatternAsWritten(s) && !AllIdChars(s) ==> |s| >= 2 && s[|s| - 1] == '\n'
  {
    (|s| >= 1 && AllIdChars(s)) ||
    (|s| >= 2 && s[|s| - 1] == '\n' && AllIdChars(s[..|s| - 1]))
  }

  /** The checks shared by `validate_student_id` and `validate_employee_id`, with the pattern as
      written. */
  function ValidateIdAsWritten(id: string, kind: string): (v: Verdict)
    ensures v.Valid? <==> id != "" && MatchesIdPatternAsWritten(id) && 6 <= |id| <= 20
  {
    if id == "" then Invalid(kind + " is required")
    else if !MatchesIdPatternAsWritten(id) then Invalid(kind + " must contain only uppercase letters and numbers")
    else if |id| < 6 || |id| > 20 then Invalid(kind + " must be between 6 and 20 characters")
    else Valid
  }

  /** A student number with a trailing newline passes the check as written. */
  lemma TrailingNewlineIdAccepted()
    ensures ValidateIdAsWritten("ST24001\n", "Student ID") == Valid
    ensures !AllIdChars("ST24001\n")
  {
    assert "ST24001\n"[..7] == "ST24001";
    assert "ST24001\n"[7] == '\n';
  }

  /** The same checks with the pattern anchored at the very end, as the message states. */
  function ValidateId(id: string, kind: string): (v: Verdict)
    ensures v.Valid? <==> 6 <= |id| <= 20 && AllIdChars(id)
    ensures id == "" ==> v == Invalid(kind + " is required")
    ensures id != "" && !AllIdChars(id) ==> v == Invalid(kind + " must contain only uppercase letters and numbers")
    ensures AllIdChars(id) && id != "" && !(6 <= |id| <= 20) ==>
              v == Invalid(kind + " must be between 6 and 20 characters")
  {
    if id == "" then Invalid(kind + " is required")
    else if !AllIdChars(id) then Invalid(kind + " must contain only uppercase letters and numbers")
    else if |id| < 6 || |id| > 20 then Invalid(kind + " must be between 6 and 20 characters")
    else Valid
  }

  /** `validate_student_id`. */
  function ValidateStudentId(id: string): (v: Verdict)
    ensures v.Valid? <==> 6 <= |id| <= 20 && AllIdChars(id)
  {
    ValidateId(id, "Student ID")
  }

  /** `validate_employee_id`. */
  function ValidateEmployeeId(id: string): (v: Verdict)
    ensures v.Valid? <==> 6 <= |id| <= 20 && AllIdChars(id)
  {
    ValidateId(id, "Employee ID")
  }

  /** The two checks agree except on the one trailing newline. */
  lemma IdCheckDiffersOnlyByNewline(id: string, kind: string)
    ensures ValidateIdAsWritten(id, kind).Valid? <==>
            ValidateId(id, kind).Valid? || (6 <= |id| <= 20 && id[|id| - 1] == '\n' && AllIdChars(id[..|id| - 1]))
  {
    if |id| >= 1 && id[|id| - 1] == '\n' {
      assert !IsIdChar(id[|id| - 1]);
    }
  }
}
