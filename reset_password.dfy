/** `validateForm` of client/src/components/ResetPassword.tsx: the checks on
    the new password and its confirmation before the reset request is sent. */
module ResetForm {
  import opened Common
  import PasswordStrength

  /** `ValidationErrors`: each field is absent or holds one message. */
  datatype ValidationErrors = ValidationErrors(password: Option<string>, confirmPassword: Option<string>)

  const NoErrors := ValidationErrors(None, None)
  const PasswordRequired := "Password is required"
  const PasswordTooShort := "Password must be at least 8 characters long"
  const PasswordTooWeak := "Password must contain uppercase, lowercase, and numbers"
  const PasswordsDiffer := "Passwords do not match"

  /** The characters `.` does not match in a JavaScript regular expression. */
  predicate IsLineTerminator(c: char)
  {
    c == '\n' || c == '\r' || c == '\U{2028}' || c == '\U{2029}'
  }

  datatype CharTest = Lower | Upper | Digit

  predicate Passes(c: char, t: CharTest)
  {
    match t
    case Lower => IsLower(c)
    case Upper => IsUpper(c)
    case Digit => IsDigit(c)
  }

  /** `(?=.*[x])` at position `p`: a character of the class lies ahead on
      the same line. */
  predicate SeesAhead(s: string, p: nat, t: CharTest)
  {
    exists k :: p <= k < |s| && Passes(s[k], t) && forall m :: p <= m < k ==> !IsLineTerminator(s[m])
  }

  /** `/(?=.*[a-z])(?=.*[A-Z])(?=.*[0-9])/.test(s)`: the search succeeds at
      some position where all three look-aheads hold. */
  predicate Mixed(s: string)
  {
    exists p: nat :: p <= |s| && SeesAhead(s, p, Lower) && SeesAhead(s, p, Upper) && SeesAhead(s, p, Digit)
  }

  /** The message the password checks leave, if any. */
  function PasswordError(password: string): Option<string>
  {
    if password == "" then Some(PasswordRequired)
    else if Utf16Length(password) < 8 then Some(PasswordTooShort)
    else if !Mixed(password) then Some(PasswordTooWeak)
    else None
  }

  /** The errors object `validateForm` builds. */
  function FormErrors(password: string, confirmPassword: string): ValidationErrors
  {
    ValidationErrors(PasswordError(password), if password != confirmPassword then Some(PasswordsDiffer) else None)
  }

  /** The reset form's state: the two inputs and the errors last shown. */
  class ResetPasswordForm {
    var password: string
    var confirmPassword: string
    var validationErrors: ValidationErrors

    /** Both inputs start empty and no error is shown. */
    constructor()
      ensures password == "" && confirmPassword == "" && validationErrors == NoErrors
    {
      password := "";
      confirmPassword := "";
      validationErrors := NoErrors;
    }

    /** `validateForm()`: fill in the errors field by field, show them, and
        report whether there were none. */
    method ValidateForm() returns (valid: bool)
      modifies this
      ensures password == old(password) && confirmPassword == old(confirmPassword)
      ensures validationErrors == FormErrors(password, confirmPassword)
      ensures valid <==> validationErrors == NoErrors
    {
      var errors := NoErrors;
      if password == "" {
        errors := errors.(password := Some(PasswordRequired));
      } else if Utf16Length(password) < 8 {
        errors := errors.(password := Some(PasswordTooShort));
      } else if !Mixed(password) {
        errors := errors.(password := Some(PasswordTooWeak));
      }
      if password != confirmPassword {
        errors := errors.(confirmPassword := Some(PasswordsDiffer));
      }
      validationErrors := errors;
      valid := errors.password.None? && errors.confirmPassword.None?;
    }
  }

  /** Each password message appears exactly when its check is the first to
      fail; the confirmation message appears exactly when the two inputs
      differ, whatever the password; the form is valid exactly when neither
      appears. */
  lemma FormErrorsSpec(password: string, confirmPassword: string)
    ensures var e := FormErrors(password, confirmPassword);
      && (e.password == Some(PasswordRequired) <==> password == "")
      && (e.password == Some(PasswordTooShort) <==> password != "" && Utf16Length(password) < 8)
      && (e.password == Some(PasswordTooWeak) <==> Utf16Length(password) >= 8 && !Mixed(password))
      && (e.password.None? <==> Utf16Length(password) >= 8 && Mixed(password))
      && (e.confirmPassword.Some? <==> password != confirmPassword)
      && (e.confirmPassword.Some? ==> e.confirmPassword.value == PasswordsDiffer)
      && (e == NoErrors <==> password == confirmPassword && Utf16Length(password) >= 8 && Mixed(password))
  {
    if password == "" {
      assert Utf16Length(password) == 0;
    }
  }

  /** A password passing the regular expression has a lower-case letter, an
      upper-case letter and a digit. */
  lemma MixedHasAllThree(s: string)
    requires Mixed(s)
    ensures PasswordStrength.HasLower(s) && PasswordStrength.HasUpper(s) && PasswordStrength.HasDigit(s)
  {
    var p: nat :| p <= |s| && SeesAhead(s, p, Lower) && SeesAhead(s, p, Upper) && SeesAhead(s, p, Digit);
    var a :| p <= a < |s| && Passes(s[a], Lower);
    var b :| p <= b < |s| && Passes(s[b], Upper);
    var c :| p <= c < |s| && Passes(s[c], Digit);
    assert IsLower(s[a]) && IsUpper(s[b]) && IsDigit(s[c]);
  }

  /** On a single line the regular expression asks for exactly the three
      classes, anywhere in the password. */
  lemma MixedOnOneLine(s: string)
    requires forall i :: 0 <= i < |s| ==> !IsLineTerminator(s[i])
    ensures Mixed(s) <==> PasswordStrength.HasLower(s) && PasswordStrength.HasUpper(s) && PasswordStrength.HasDigit(s)
  {
    if PasswordStrength.HasLower(s) && PasswordStrength.HasUpper(s) && PasswordStrength.HasDigit(s) {
      var a :| 0 <= a < |s| && IsLower(s[a]);
      var b :| 0 <= b < |s| && IsUpper(s[b]);
      var c :| 0 <= c < |s| && IsDigit(s[c]);
      assert Passes(s[a], Lower) && Passes(s[b], Upper) && Passes(s[c], Digit);
      assert SeesAhead(s, 0, Lower) && SeesAhead(s, 0, Upper) && SeesAhead(s, 0, Digit);
    }
    if Mixed(s) {
      MixedHasAllThree(s);
    }
  }

  /** The three classes split over two lines fail the expression: a
      password of nine characters whose capital and digit sit after a line
      feed is refused as too weak. */
  lemma SplitLinesRefused()
    ensures PasswordError("aaaaaa\nB1") == Some(PasswordTooWeak)
  {
    var s := "aaaaaa\nB1";
    assert Utf16Length(s) == 9 by {
      assert forall i :: 0 <= i < |s| ==> s[i] as int < 0x1_0000;
      Utf16LengthOfBmp(s);
    }
    forall p: nat | p <= |s| ensures !(SeesAhead(s, p, Lower) && SeesAhead(s, p, Upper)) {
      if p <= 6 {
        NoCapitalOnFirstLine(s, p);
      } else {
        forall k | p <= k < |s| ensures !Passes(s[k], Lower) { }
      }
    }
  }

  lemma NoCapitalOnFirstLine(s: string, p: nat)
    requires s == "aaaaaa\nB1" && p <= 6
    ensures !SeesAhead(s, p, Upper)
  {
    forall k | p <= k < |s| && Passes(s[k], Upper) ensures p <= 6 < k && IsLineTerminator(s[6]) {
      assert forall i :: 0 <= i < 7 ==> !IsUpper(s[i]);
    }
  }

  /** Any password `validateForm` accepts scores at least 4 ("Strong") on
      the strength indicator: it is long enough and has all three classes;
      only the symbol criterion may be missing. */
  lemma AcceptedPasswordIsStrong(password: string, confirmPassword: string)
    requires FormErrors(password, confirmPassword) == NoErrors
    ensures PasswordStrength.Score(password) >= 4
    ensures PasswordStrength.Score(password) == 5 <==> PasswordStrength.HasSymbol(password)
  {
    FormErrorsSpec(password, confirmPassword);
    MixedHasAllThree(password);
    PasswordStrength.ScoreIsSum(password);
  }
}
