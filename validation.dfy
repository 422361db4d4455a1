/** Front-end password rules: the strength meter and the sign-up form checks. */
module Validation {
  import opened Strs

  /** `String.prototype.length`: UTF-16 code units, two for a character outside the BMP. */
  function Utf16Length(s: string): (n: nat)
    ensures n >= |s|
    decreases |s|
  {
    if |s| == 0 then 0 else (if s[0] as int >= 0x1_0000 then 2 else 1) + Utf16Length(s[1..])
  }

  lemma {:induction false} Utf16LengthAppend(a: string, b: string)
    ensures Utf16Length(a + b) == Utf16Length(a) + Utf16Length(b)
    decreases |a|
  {
    if |a| > 0 {
      assert (a + b)[1..] == a[1..] + b;
      Utf16LengthAppend(a[1..], b);
    } else {
      assert a + b == b;
    }
  }

  predicate HasLower(s: string) { exists i :: 0 <= i < |s| && IsLower(s[i]) }
  predicate HasUpper(s: string) { exists i :: 0 <= i < |s| && IsUpper(s[i]) }
  predicate HasDigit(s: string) { exists i :: 0 <= i < |s| && IsDigit(s[i]) }
  predicate HasLetter(s: string) { exists i :: 0 <= i < |s| && IsLetter(s[i]) }
  /** `/[^A-Za-z0-9]/`. */
  predicate HasOther(s: string) { exists i :: 0 <= i < |s| && !IsLetter(s[i]) && !IsDigit(s[i]) }

  function Bit(b: bool): nat { if b then 1 else 0 }

  /** The score `calculatePasswordStrength` returns. */
  function Strength(password: string): (score: nat)
  {
    if |password| == 0 then 0
    else if Utf16Length(password) < 10 then 1
    else
      var raw := Bit(Utf16Length(password) >= 12) + Bit(Utf16Length(password) >= 16)
        + Bit(HasLower(password)) + Bit(HasUpper(password)) + Bit(HasDigit(password)) + Bit(HasOther(password));
      if raw < 5 then raw else 5
  }

  /** `calculatePasswordStrength`: the score accumulated test by test. */
  method CalculatePasswordStrength(password: string) returns (score: nat)
    ensures score == Strength(password)
  {
    if |password| == 0 {
      return 0;
    }
    var length := Utf16Length(password);
    if length < 10 {
      return 1;
    }
    score := 0;
    if length >= 12 { score := score + 1; }
    if length >= 16 { score := score + 1; }
    if HasLower(password) { score := score + 1; }
    if HasUpper(password) { score := score + 1; }
    if HasDigit(password) { score := score + 1; }
    if HasOther(password) { score := score + 1; }
    if score > 5 {
      score := 5;
    }
  }

  /** Every character class is one of the four the meter counts. */
  lemma NonEmptyHasAClass(s: string)
    requires |s| > 0
    ensures HasLower(s) || HasUpper(s) || HasDigit(s) || HasOther(s)
  {
    var c := s[0];
    if IsLetter(c) {
      assert IsLower(c) || IsUpper(c);
    }
  }

  /** The empty password scores 0, any other between 1 and 5. */
  lemma StrengthRange(password: string)
    ensures |password| == 0 <==> Strength(password) == 0
    ensures |password| > 0 ==> 1 <= Strength(password) <= 5
  {
    if |password| > 0 {
      NonEmptyHasAClass(password);
    }
  }

  /** Appending characters never lowers the score. */
  lemma StrengthMonotone(a: string, b: string)
    ensures Strength(a) <= Strength(a + b)
  {
    var s := a + b;
    Utf16LengthAppend(a, b);
    assert forall i :: 0 <= i < |a| ==> s[i] == a[i];
    if |a| > 0 {
      NonEmptyHasAClass(s);
      if HasLower(a) { var i :| 0 <= i < |a| && IsLower(a[i]); assert IsLower(s[i]); }
      if HasUpper(a) { var i :| 0 <= i < |a| && IsUpper(a[i]); assert IsUpper(s[i]); }
      if HasDigit(a) { var i :| 0 <= i < |a| && IsDigit(a[i]); assert IsDigit(s[i]); }
      if HasOther(a) { var i :| 0 <= i < |a| && !IsLetter(a[i]) && !IsDigit(a[i]); assert !IsLetter(s[i]) && !IsDigit(s[i]); }
    }
  }

  /** `getPasswordStrengthText`. */
  function StrengthText(strength: int): (t: string)
  {
    if strength <= 1 then "Weak"
    else if strength <= 2 then "Fair"
    else if strength <= 3 then "Good"
    else if strength <= 4 then "Strong"
    else "Very Strong"
  }

  /** `getPasswordStrengthColor`. */
  function StrengthColor(strength: int): (c: string)
  {
    if strength <= 1 then "text-red-600 bg-red-600"
    else if strength <= 2 then "text-orange-600 bg-orange-600"
    else if strength <= 3 then "text-yellow-600 bg-yellow-600"
    else if strength <= 4 then "text-blue-600 bg-blue-600"
    else "text-green-600 bg-green-600"
  }

  /** The label and the colour move together: equal labels, equal colours. */
  lemma TextAndColorAgree(x: int, y: int)
    ensures StrengthText(x) == StrengthText(y) <==> StrengthColor(x) == StrengthColor(y)
  {
    // Both are decided by the same five bands of the strength.
    TextDecidesBand(x, y);
    ColorDecidesBand(x, y);
  }

  /** The strength band, 1 to 5, that both the label and the colour follow. */
  function Band(strength: int): (b: int)
    ensures 1 <= b <= 5
  {
    if strength <= 1 then 1 else if strength <= 4 then strength else 5
  }

  /** The label tells the band: the five labels differ in their first letter. */
  lemma TextDecidesBand(x: int, y: int)
    ensures StrengthText(x) == StrengthText(y) <==> Band(x) == Band(y)
  {
    if Band(x) != Band(y) {
      assert StrengthText(x)[0] != StrengthText(y)[0];
    }
  }

  /** The colour tells the band: the five colours differ in their sixth letter. */
  lemma ColorDecidesBand(x: int, y: int)
    ensures StrengthColor(x) == StrengthColor(y) <==> Band(x) == Band(y)
  {
    ColorInitial(x);
    ColorInitial(y);
    if Band(x) != Band(y) {
      assert StrengthColor(x)[5] != StrengthColor(y)[5];
    }
  }

  /** The sixth letter of the colour names the band: red, orange, yellow, blue, green. */
  lemma ColorInitial(x: int)
    ensures |StrengthColor(x)| > 5
    ensures Band(x) == 1 ==> StrengthColor(x)[5] == 'r'
    ensures Band(x) == 2 ==> StrengthColor(x)[5] == 'o'
    ensures Band(x) == 3 ==> StrengthColor(x)[5] == 'y'
    ensures Band(x) == 4 ==> StrengthColor(x)[5] == 'b'
    ensures Band(x) == 5 ==> StrengthColor(x)[5] == 'g'
  {
  }

  /** JavaScript line terminators, which a regex `.` does not match. */
  predicate IsJsLineTerminator(c: char)
  {
    c == '\n' || c == '\r' || c == '\U{2028}' || c == '\U{2029}'
  }

  /** `(?=.*[a-zA-Z])` at the start of `s`: a letter before the first line terminator. */
  predicate LetterBeforeBreak(s: string)
    decreases |s|
  {
    |s| > 0 && !IsJsLineTerminator(s[0]) && (IsLetter(s[0]) || LetterBeforeBreak(s[1..]))
  }

  /** `(?=.*[0-9])` at the start of `s`: a digit before the first line terminator. */
  predicate DigitBeforeBreak(s: string)
    decreases |s|
  {
    |s| > 0 && !IsJsLineTerminator(s[0]) && (IsDigit(s[0]) || DigitBeforeBreak(s[1..]))
  }

  /** `/(?=.*[a-zA-Z])(?=.*[0-9])/.test(s)`: both lookaheads succeed at some position. */
  predicate LettersAndNumbers(s: string)
    decreases |s|
  {
    (LetterBeforeBreak(s) && DigitBeforeBreak(s)) || (|s| > 0 && LettersAndNumbers(s[1..]))
  }

  lemma {:induction false} LetterBeforeBreakSingleLine(s: string)
    requires forall i :: 0 <= i < |s| ==> !IsJsLineTerminator(s[i])
    ensures LetterBeforeBreak(s) <==> HasLetter(s)
    ensures DigitBeforeBreak(s) <==> HasDigit(s)
    decreases |s|
  {
    if |s| > 0 {
      LetterBeforeBreakSingleLine(s[1..]);
      assert HasLetter(s) <==> IsLetter(s[0]) || HasLetter(s[1..]) by {
        if HasLetter(s) && !IsLetter(s[0]) {
          var i :| 0 <= i < |s| && IsLetter(s[i]);
          assert IsLetter(s[1..][i - 1]);
        }
        if HasLetter(s[1..]) {
          var i :| 0 <= i < |s| - 1 && IsLetter(s[1..][i]);
          assert IsLetter(s[i + 1]);
        }
      }
      assert HasDigit(s) <==> IsDigit(s[0]) || HasDigit(s[1..]) by {
        if HasDigit(s) && !IsDigit(s[0]) {
          var i :| 0 <= i < |s| && IsDigit(s[i]);
          assert IsDigit(s[1..][i - 1]);
        }
        if HasDigit(s[1..]) {
          var i :| 0 <= i < |s| - 1 && IsDigit(s[1..][i]);
          assert IsDigit(s[i + 1]);
        }
      }
    }
  }

  /** Finding both lookaheads at a later position means the string holds a letter and a digit. */
  lemma {:induction false} LettersAndNumbersHasBoth(s: string)
    requires LettersAndNumbers(s)
    ensures HasLetter(s) && HasDigit(s)
    decreases |s|
  {
    if LetterBeforeBreak(s) && DigitBeforeBreak(s) {
      BeforeBreakHas(s);
    } else {
      LettersAndNumbersHasBoth(s[1..]);
      var i :| 0 <= i < |s| - 1 && IsLetter(s[1..][i]);
      var j :| 0 <= j < |s| - 1 && IsDigit(s[1..][j]);
      assert IsLetter(s[i + 1]) && IsDigit(s[j + 1]);
    }
  }

  lemma {:induction false} BeforeBreakHas(s: string)
    ensures LetterBeforeBreak(s) ==> HasLetter(s)
    ensures DigitBeforeBreak(s) ==> HasDigit(s)
    decreases |s|
  {
    if |s| > 0 {
      BeforeBreakHas(s[1..]);
      if !IsLetter(s[0]) && LetterBeforeBreak(s) {
        var i :| 0 <= i < |s| - 1 && IsLetter(s[1..][i]);
        assert IsLetter(s[i + 1]);
      }
      if !IsDigit(s[0]) && DigitBeforeBreak(s) {
        var i :| 0 <= i < |s| - 1 && IsDigit(s[1..][i]);
        assert IsDigit(s[i + 1]);
      }
    }
  }

  /** On a single line the test holds iff the text contains a letter and a digit. */
  lemma LettersAndNumbersSingleLine(s: string)
    requires forall i :: 0 <= i < |s| ==> !IsJsLineTerminator(s[i])
    ensures LettersAndNumbers(s) <==> HasLetter(s) && HasDigit(s)
  {
    LetterBeforeBreakSingleLine(s);
    if LettersAndNumbers(s) {
      LettersAndNumbersHasBoth(s);
    }
  }

  datatype Validation = Validation(isValid: bool, errors: seq<string>)

  const EnterPassword: string := "Please enter a password"
  const TooShort: string := "Password must be at least 10 characters"
  const TooLong: string := "Password cannot exceed 32 characters"
  const NeedLettersAndNumbers: string := "Password must contain both letters and numbers"

  /** `validatePassword`: the first failing rule, if any, and validity iff none failed. */
  function ValidatePassword(password: string): (v: Validation)
    ensures v.isValid <==> v.errors == []
    ensures |v.errors| <= 1
    ensures v.isValid <==> 10 <= Utf16Length(password) <= 32 && LettersAndNumbers(password)
    ensures |password| == 0 ==> v.errors == [EnterPassword]
  {
    var errors :=
      if |password| == 0 then [EnterPassword]
      else if Utf16Length(password) < 10 then [TooShort]
      else if Utf16Length(password) > 32 then [TooLong]
      else if !LettersAndNumbers(password) then [NeedLettersAndNumbers]
      else [];
    Validation(|errors| == 0, errors)
  }

  /** A password the form accepts scores at least "Fair" and is never labelled "Weak". */
  lemma ValidPasswordNotWeak(password: string)
    requires ValidatePassword(password).isValid
    ensures Strength(password) >= 2
    ensures StrengthText(Strength(password)) != "Weak"
  {
    LettersAndNumbersHasBoth(password);
    var i :| 0 <= i < |password| && IsLetter(password[i]);
    assert IsLower(password[i]) || IsUpper(password[i]);
  }

  /** Without letters, the letter lookahead fails everywhere. */
  lemma {:induction false} NoLetterNoMatch(s: string)
    requires forall i :: 0 <= i < |s| ==> !IsLetter(s[i])
    ensures !LettersAndNumbers(s)
    decreases |s|
  {
    if |s| > 0 {
      BeforeBreakHas(s);
      NoLetterNoMatch(s[1..]);
    }
  }

  /**
   * The letters-and-numbers rule is per line: letters on one line and digits on the
   * next do not pass, though the password holds both.
   */
  lemma {:induction false} LinesSeparate(a: string, b: string)
    requires forall i :: 0 <= i < |a| ==> !IsDigit(a[i]) && !IsJsLineTerminator(a[i])
    requires forall i :: 0 <= i < |b| ==> !IsLetter(b[i])
    ensures !LettersAndNumbers(a + "\n" + b)
    decreases |a|
  {
    var x := a + "\n" + b;
    NoDigitBeforeBreak(a, b);
    if |a| == 0 {
      assert x[1..] == b;
      NoLetterNoMatch(b);
    } else {
      assert x[1..] == a[1..] + "\n" + b;
      LinesSeparate(a[1..], b);
    }
  }

  lemma {:induction false} NoDigitBeforeBreak(a: string, b: string)
    requires forall i :: 0 <= i < |a| ==> !IsDigit(a[i]) && !IsJsLineTerminator(a[i])
    ensures !DigitBeforeBreak(a + "\n" + b)
    decreases |a|
  {
    if |a| > 0 {
      assert (a + "\n" + b)[1..] == a[1..] + "\n" + b;
      NoDigitBeforeBreak(a[1..], b);
    }
  }

  /** `validatePasswordConfirmation`. */
  function ValidatePasswordConfirmation(password: string, confirmPassword: string): (v: Validation)
    ensures v.isValid <==> v.errors == []
    ensures v.isValid <==> confirmPassword != "" && confirmPassword == password
    ensures confirmPassword == "" ==> v.errors == ["Please confirm your password"]
  {
    var errors :=
      if |confirmPassword| == 0 then ["Please confirm your password"]
      else if password != confirmPassword then ["Passwords do not match"]
      else [];
    Validation(|errors| == 0, errors)
  }
}
