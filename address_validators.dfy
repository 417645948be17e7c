/**
 * The field validators shared, word for word, by the guest-checkout serializers
 * (orders/serializers.py) and the address and profile serializers (users/serializers.py):
 * trimmed minimum lengths, the Polish postal code and the phone number.
 * Each function takes the value DRF hands to validate_<field> and returns the value it stores.
 */
module AddressValidators {
  import opened Wrappers
  import opened Text

  datatype FieldProblem = Blank | TooShort | TooLong | BadPostalCode | PhoneCharacters | PhoneLength

  /**
   * What a DRF CharField does before validate_<field> sees the value: a value that is blank once
   * stripped is refused, the value is stripped (trim_whitespace), and max_length applies to the
   * stripped value.
   */
  function CharInput(raw: string, maxLength: nat): (r: Result<string, FieldProblem>)
    ensures r.Success? <==> Strip(raw) != "" && |Strip(raw)| <= maxLength
    ensures r.Success? ==> r.value == Strip(raw)
    ensures Strip(raw) == "" ==> r == Failure(Blank)
  {
    var v := Strip(raw);
    if v == "" then Failure(Blank) else if |v| > maxLength then Failure(TooLong) else Success(v)
  }

  /** A value the field accepted is accepted again unchanged. */
  lemma CharInputIsStable(raw: string, maxLength: nat)
    requires CharInput(raw, maxLength).Success?
    ensures CharInput(CharInput(raw, maxLength).value, maxLength) == CharInput(raw, maxLength)
  {
    StripIdempotent(raw);
  }

  /**
   * validate_recipient_name (orders), validate_first_name, validate_last_name, validate_street and
   * validate_city: the value must be at least `min` characters long once stripped, and the stripped
   * value is what is kept.
   */
  function ValidateTrimmed(value: string, min: nat): (r: Result<string, FieldProblem>)
    requires min >= 1
    ensures r.Success? <==> |Strip(value)| >= min
    ensures r.Success? ==> r.value == Strip(value)
    ensures r.Failure? ==> r.error == TooShort
  {
    if value == "" || |Strip(value)| < min then Failure(TooShort) else Success(Strip(value))
  }

  /** A value the trimmed validators accept is accepted again unchanged. */
  lemma TrimmedIsStable(value: string, min: nat)
    requires min >= 1 && ValidateTrimmed(value, min).Success?
    ensures ValidateTrimmed(ValidateTrimmed(value, min).value, min) == ValidateTrimmed(value, min)
  {
    StripIdempotent(value);
  }

  /**
   * AddressSerializer.validate_recipient_name: as ValidateTrimmed with 2, and in addition the value as
   * received (before stripping) must not exceed 200 characters.
   */
  function ValidateRecipientName(value: string): (r: Result<string, FieldProblem>)
    ensures r.Success? <==> |Strip(value)| >= 2 && |value| <= 200
    ensures r.Success? ==> r.value == Strip(value) && |r.value| <= 200
    ensures |Strip(value)| < 2 ==> r == Failure(TooShort)
    ensures |Strip(value)| >= 2 && |value| > 200 ==> r == Failure(TooLong)
  {
    if value == "" || |Strip(value)| < 2 then Failure(TooShort)
    else if |value| > 200 then Failure(TooLong)
    else Success(Strip(value))
  }

  /** The postal code with spaces and dashes removed (value.replace(' ', '').replace('-', '')). */
  function PostalCleaned(value: string): (c: string)
    ensures ' ' !in c && '-' !in c
  {
    Remove(Remove(value, ' '), '-')
  }

  /**
   * re.match(r'^\d{5}$', c): five digits, where Python's `$` also matches just before a final
   * newline, so five digits followed by "\n" match too.
   */
  predicate FiveDigits(c: string) {
    (|c| == 5 && AllDigits(c)) || (|c| == 6 && AllDigits(c[..5]) && c[5] == '\n')
  }

  /**
   * validate_postal_code: an empty value passes untouched; otherwise the cleaned value must be five
   * digits; a value without a dash is rewritten as two digits, a dash and the rest, and a value that
   * already has a dash is kept as given.
   */
  function ValidatePostalCode(value: string): (r: Result<string, FieldProblem>)
    ensures r.Success? <==> value == "" || FiveDigits(PostalCleaned(value))
    ensures r.Failure? ==> r.error == BadPostalCode
    ensures r.Success? && value != "" ==> '-' in r.value && PostalCleaned(r.value) == PostalCleaned(value)
    ensures r.Success? && '-' in value ==> r.value == value
  {
    if value == "" then Success(value)
    else
      var cleaned := PostalCleaned(value);
      if !FiveDigits(cleaned) then Failure(BadPostalCode)
      else if '-' !in value then Success(Dashed(cleaned))
      else Success(value)
  }

  /** f"{cleaned[:2]}-{cleaned[2:]}" for a cleaned postal code. */
  function Dashed(cleaned: string): (r: string)
    requires FiveDigits(cleaned)
    ensures '-' in r && |r| == |cleaned| + 1
    ensures PostalCleaned(r) == cleaned
  {
    DashedCleans(cleaned[..2], cleaned[2..]);
    assert cleaned[..2] + cleaned[2..] == cleaned;
    cleaned[..2] + "-" + cleaned[2..]
  }

  lemma DashedCleans(a: string, b: string)
    requires forall i :: 0 <= i < |a| ==> a[i] != ' ' && a[i] != '-'
    requires forall i :: 0 <= i < |b| ==> b[i] != ' ' && b[i] != '-'
    ensures PostalCleaned(a + "-" + b) == a + b
  {
    NoSpaceAroundDash(a, b);
    DropDash(a, b);
  }

  lemma NoSpaceAroundDash(a: string, b: string)
    requires forall i :: 0 <= i < |a| ==> a[i] != ' '
    requires forall i :: 0 <= i < |b| ==> b[i] != ' '
    ensures Remove(a + "-" + b, ' ') == a + "-" + b
  {
    var r := a + "-" + b;
    assert forall i :: 0 <= i < |r| ==> r[i] != ' ' by {
      forall i | 0 <= i < |r| ensures r[i] != ' ' {
        if i < |a| { assert r[i] == a[i]; } else if i > |a| { assert r[i] == b[i - |a| - 1]; }
      }
    }
    RemoveAbsent(r, ' ');
  }

  lemma DropDash(a: string, b: string)
    requires '-' !in a && '-' !in b
    ensures Remove(a + "-" + b, '-') == a + b
  {
    calc {
      Remove(a + "-" + b, '-');
    == { RemoveConcat(a + "-", b, '-'); }
      Remove(a + "-", '-') + Remove(b, '-');
    == { RemoveConcat(a, "-", '-'); }
      Remove(a, '-') + Remove("-", '-') + Remove(b, '-');
    == { RemoveAbsent(a, '-'); RemoveAbsent(b, '-'); assert Remove("-", '-') == []; }
      a + [] + b;
    == { assert a + [] == a; }
      a + b;
    }
  }

  /** Normalising a postal code is idempotent: the stored code validates to itself. */
  lemma PostalCodeIdempotent(value: string)
    requires ValidatePostalCode(value).Success?
    ensures ValidatePostalCode(ValidatePostalCode(value).value) == ValidatePostalCode(value)
  {
  }

  /** A plain five-digit code is stored as DD-DDD. */
  lemma PostalCodeOfFiveDigits(value: string)
    requires |value| == 5 && AllDigits(value)
    ensures ValidatePostalCode(value).Success?
    ensures var out := ValidatePostalCode(value).value;
      |out| == 6 && out[2] == '-' && out[..2] == value[..2] && out[3..] == value[2..]
  {
    assert ' ' !in value && '-' !in value by {
      assert forall i :: 0 <= i < |value| ==> value[i] != ' ' && value[i] != '-';
    }
    RemoveAbsent(value, ' ');
    RemoveAbsent(value, '-');
  }

  /** The characters of r'^[\d\+\s\-]+$'. */
  predicate PhoneChar(c: char) {
    IsDigit(c) || c == '+' || IsSpace(c) || c == '-'
  }

  /**
   * re.match(r'^[\d\+\s\-]+$', value): one or more phone characters. (A final newline is itself a
   * \s character, so `$` matching before it adds nothing here.)
   */
  predicate PhonePattern(value: string) {
    value != "" && forall i :: 0 <= i < |value| ==> PhoneChar(value[i])
  }

  /** value.replace(' ', '').replace('-', '').replace('+', ''). */
  function PhoneCleaned(value: string): (c: string)
    ensures forall x :: x in c <==> x in value && x != ' ' && x != '-' && x != '+'
  {
    Remove(Remove(Remove(value, ' '), '-'), '+')
  }

  /**
   * validate_phone as written: an empty value passes; otherwise the value must match the pattern and
   * the cleaned value must be 9 to 15 characters long. The cleaned value still holds tabs, newlines
   * and the other \s characters the pattern admits, so they count towards the length.
   */
  function PhoneAsWritten(value: string): (r: Result<string, FieldProblem>)
    ensures r.Success? <==> value == "" || (PhonePattern(value) && 9 <= |PhoneCleaned(value)| <= 15)
    ensures r.Success? ==> r.value == value
  {
    if value == "" then Success(value)
    else if !PhonePattern(value) then Failure(PhoneCharacters)
    else if |PhoneCleaned(value)| < 9 || |PhoneCleaned(value)| > 15 then Failure(PhoneLength)
    else Success(value)
  }

  /**
   * What the check as written does guarantee: an accepted number has at most 15 digits, since every
   * digit survives the three removals.
   */
  lemma PhoneAsWrittenBoundsDigits(value: string)
    requires PhoneAsWritten(value).Success?
    ensures DigitCount(value) <= 15
  {
    if value != "" {
      RemoveKeepsDigits(value, ' ');
      RemoveKeepsDigits(Remove(value, ' '), '-');
      RemoveKeepsDigits(Remove(Remove(value, ' '), '-'), '+');
    }
  }

  /** A phone number of five digits separated by tabs passes the check as written. */
  lemma PhoneAsWrittenAcceptsFiveDigits()
    ensures DigitCount("1\t2\t3\t4\t5") == 5
    ensures PhoneAsWritten("1\t2\t3\t4\t5").Success?
  {
    TabbedDigits();
    TabbedPattern();
    TabbedCleaned();
  }

  lemma TabbedDigits()
    ensures DigitCount("1\t2\t3\t4\t5") == 5
  {
    var v := "1\t2\t3\t4\t5";
    assert DigitCount(v[8..]) == 1;
    assert DigitCount(v[6..]) == 2;
    assert DigitCount(v[4..]) == 3;
    assert DigitCount(v[2..]) == 4;
  }

  lemma TabbedPattern()
    ensures PhonePattern("1\t2\t3\t4\t5")
  {
    var v := "1\t2\t3\t4\t5";
    assert forall i :: 0 <= i < |v| ==> PhoneChar(v[i]);
  }

  lemma TabbedCleaned()
    ensures PhoneCleaned("1\t2\t3\t4\t5") == "1\t2\t3\t4\t5"
  {
    var v := "1\t2\t3\t4\t5";
    assert forall i :: 0 <= i < |v| ==> v[i] != ' ' && v[i] != '-' && v[i] != '+';
    RemoveAbsent(v, ' ');
    RemoveAbsent(v, '-');
    RemoveAbsent(v, '+');
  }

  /** The corrected check refuses the same number. */
  lemma ValidatePhoneRefusesFiveDigits()
    ensures ValidatePhone("1\t2\t3\t4\t5") == Failure(PhoneLength)
  {
    TabbedDigits();
    TabbedPattern();
  }

  /**
   * validate_phone as its message states it ("from 9 to 15 digits"): the pattern, and 9 to 15
   * digits. The serializers keep the check as written; this is the definition it evidently means.
   */
  function ValidatePhone(value: string): (r: Result<string, FieldProblem>)
    ensures r.Success? <==> value == "" || (PhonePattern(value) && 9 <= DigitCount(value) <= 15)
    ensures r.Success? ==> r.value == value
    ensures value != "" && !PhonePattern(value) ==> r == Failure(PhoneCharacters)
  {
    if value == "" then Success(value)
    else if !PhonePattern(value) then Failure(PhoneCharacters)
    else if DigitCount(value) < 9 || DigitCount(value) > 15 then Failure(PhoneLength)
    else Success(value)
  }

  /** Where the only white space is the plain space, the code as written and the corrected check agree. */
  lemma PhoneChecksAgree(value: string)
    requires forall i :: 0 <= i < |value| ==> IsSpace(value[i]) ==> value[i] == ' '
    ensures PhoneAsWritten(value) == ValidatePhone(value)
  {
    if PhonePattern(value) {
      var c := PhoneCleaned(value);
      assert AllDigits(c) by {
        forall i | 0 <= i < |c| ensures IsDigit(c[i]) {
          assert c[i] in c;
          var k :| 0 <= k < |value| && value[k] == c[i];
          assert PhoneChar(value[k]);
        }
      }
      RemoveKeepsDigits(value, ' ');
      RemoveKeepsDigits(Remove(value, ' '), '-');
      RemoveKeepsDigits(Remove(Remove(value, ' '), '-'), '+');
    }
  }
}
