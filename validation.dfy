/**
 * The request validators of `backend/middleware/validation.js`: the PCI-DSS
 * password policy, the gate that answers 400 with the collected errors, and
 * the field rules of the register, account and money-moving routes. Amounts
 * are in cents, so the `isFloat({ min: 0.01 })` rule is "at least one cent".
 */
module Validation {
  import opened Wrappers
  import opened Text

  const LengthMessage := "Password must be at least 8 characters long"
  const UpperMessage := "Password must contain at least one uppercase letter"
  const LowerMessage := "Password must contain at least one lowercase letter"
  const DigitMessage := "Password must contain at least one digit"
  const SpecialMessage := "Password must contain at least one special character (!@#$%^&*()_+-=[]{}|;:,.<>?)"

  /** The class `[!@#$%^&*()_+\-=\[\]{};':"\\|,.<>\/?]`. */
  predicate IsSpecial(c: char) {
    c in "!@#$%^&*()_+-=[]{};':\"\\|,.<>/?"
  }

  predicate HasUpper(s: string) { exists i :: 0 <= i < |s| && IsAsciiUpper(s[i]) }
  predicate HasLower(s: string) { exists i :: 0 <= i < |s| && IsAsciiLower(s[i]) }
  predicate HasDigit(s: string) { exists i :: 0 <= i < |s| && IsDigit(s[i]) }
  predicate HasSpecial(s: string) { exists i :: 0 <= i < |s| && IsSpecial(s[i]) }

  /** `validatePCIDSSPassword`'s result: `true`, or the message of a failed check. */
  datatype PasswordVerdict = Accepted | Rejected(message: string)

  /** `validatePCIDSSPassword`: the checks in order, answering the message of the first that fails. */
  function CheckPassword(password: string): (r: PasswordVerdict)
    ensures r.Accepted? <==> |password| >= 8 && HasUpper(password) && HasLower(password) && HasDigit(password) && HasSpecial(password)
    ensures r == Rejected(LengthMessage) <==> |password| < 8
    ensures r == Rejected(UpperMessage) <==> |password| >= 8 && !HasUpper(password)
    ensures r == Rejected(LowerMessage) <==> |password| >= 8 && HasUpper(password) && !HasLower(password)
    ensures r == Rejected(DigitMessage) <==> |password| >= 8 && HasUpper(password) && HasLower(password) && !HasDigit(password)
    ensures r == Rejected(SpecialMessage) <==>
      |password| >= 8 && HasUpper(password) && HasLower(password) && HasDigit(password) && !HasSpecial(password)
  {
    if |password| < 8 then Rejected(LengthMessage)
    else if !HasUpper(password) then Rejected(UpperMessage)
    else if !HasLower(password) then Rejected(LowerMessage)
    else if !HasDigit(password) then Rejected(DigitMessage)
    else if !HasSpecial(password) then Rejected(SpecialMessage)
    else Accepted
  }

  /** A password of at least eight characters that draws from all four classes passes, whatever else it holds. */
  lemma PolicyIsMonotone(password: string, extra: string)
    requires CheckPassword(password).Accepted?
    ensures CheckPassword(password + extra).Accepted?
  {
    var s := password + extra;
    var u :| 0 <= u < |password| && IsAsciiUpper(password[u]);
    var l :| 0 <= l < |password| && IsAsciiLower(password[l]);
    var d :| 0 <= d < |password| && IsDigit(password[d]);
    var p :| 0 <= p < |password| && IsSpecial(password[p]);
    assert s[u] == password[u] && s[l] == password[l] && s[d] == password[d] && s[p] == password[p];
  }

  /** What a validation gate does: pass the request on, or answer. */
  datatype Gate = Next | Respond(code: int, errors: seq<string>)

  /** `handleValidationErrors`: 400 with every collected error when there is one, otherwise on to the handler. */
  function HandleValidationErrors(errors: seq<string>): (r: Gate)
    ensures r.Next? <==> errors == []
    ensures r.Respond? ==> r.code == 400 && r.errors == errors
  {
    if errors == [] then Next else Respond(400, errors)
  }

  /** `isIn(['checking', 'savings', 'business'])`. */
  predicate IsAccountType(accountType: string) {
    accountType == "checking" || accountType == "savings" || accountType == "business"
  }

  /** `isFloat({ min: 0.01 })` on an amount in cents. */
  predicate IsPositiveAmount(cents: int) {
    cents >= 1
  }

  /** The register username rule, applied after the `trim()` sanitizer: 3 to 30 characters. */
  predicate IsUsername(username: string) {
    3 <= |Trim(username)| <= 30
  }

  const PasswordPolicyMessage := "Password must meet PCI-DSS requirements: min 8 characters, uppercase, lowercase, digit, and special character"

  /**
   * The register password rule as written: `.custom(validatePCIDSSPassword)` fails a
   * field only when the validator throws or returns a falsy value, and the policy
   * returns a non-empty message on failure. So the rule fails only when there is no
   * password string at all (reading `length` of a missing value throws).
   */
  function PasswordRuleAsWritten(password: Option<string>): (ok: bool)
    ensures ok <==> password.Some?
  {
    match password
    case None => false
    case Some(p) =>
      var verdict := CheckPassword(p);
      verdict.Accepted? || verdict.message != ""
  }

  /** Under the rule as written, `Password1` (no special character) is accepted at registration. */
  lemma WeakPasswordPassesAsWritten()
    ensures CheckPassword("Password1").Rejected?
    ensures PasswordRuleAsWritten(Some("Password1"))
  {
    var s := "Password1";
    assert IsAsciiUpper(s[0]) && IsAsciiLower(s[1]) && IsDigit(s[8]);
    assert !HasSpecial(s) by {
      forall i | 0 <= i < |s| ensures !IsSpecial(s[i]) {
        assert IsAsciiUpper(s[i]) || IsAsciiLower(s[i]) || IsDigit(s[i]);
      }
    }
    assert CheckPassword(s) == Rejected(SpecialMessage);
  }

  /** The register password rule as the policy intends: a password that passes every check. */
  function PasswordRule(password: Option<string>): (ok: bool)
    ensures ok <==> password.Some? && |password.value| >= 8 && HasUpper(password.value) && HasLower(password.value)
                    && HasDigit(password.value) && HasSpecial(password.value)
  {
    password.Some? && CheckPassword(password.value).Accepted?
  }

  /**
   * `registerValidation`: the messages of the failed field rules in field order
   * (username, email, password), under the intended password rule. Email syntax is
   * the library's `isEmail` and enters as a flag.
   */
  function RegisterErrors(username: string, emailIsValid: bool, password: Option<string>): (errors: seq<string>)
    ensures errors == [] <==> IsUsername(username) && emailIsValid && PasswordRule(password)
    ensures |errors| <= 3
  {
    (if IsUsername(username) then [] else ["Username must be 3-30 characters"])
    + (if emailIsValid then [] else ["Invalid email address"])
    + (if PasswordRule(password) then [] else [PasswordPolicyMessage])
  }

  const AmountMessage := "Amount must be a positive number"

  /** `Number.prototype.toString()` of an integer. */
  function IntString(n: int): string {
    if n < 0 then "-" + DecimalString(-n) else DecimalString(n)
  }

  /** The pattern `isInt()` checks with its default options: an optional sign, then digits, leading zeros allowed. */
  predicate IsIntText(s: string) {
    |Unsigned(s)| > 0 && forall i :: 0 <= i < |Unsigned(s)| ==> IsDigit(Unsigned(s)[i])
  }

  /** The text after an optional leading sign. */
  function Unsigned(s: string): string {
    if |s| > 0 && (s[0] == '+' || s[0] == '-') then s[1..] else s
  }

  /** `parseInt` of a text that passed `isInt()`: the sign, then the value of the digits. */
  function IntValue(s: string): int
    requires IsIntText(s)
  {
    if s[0] == '-' then -(DecimalValue(Unsigned(s)) as int) else DecimalValue(Unsigned(s))
  }

  /**
   * An id field of a JSON request body: a number or a string. A JSON number that is
   * not an integer fails `isInt()` just as its text does, so it is carried as that text.
   */
  datatype IdParam = Num(n: int) | Str(text: string) {
    /** The string that `isInt()` checks and the database driver sends. */
    function Raw(): string {
      match this
      case Num(n) => IntString(n)
      case Str(text) => text
    }

    /** `isInt()`. */
    predicate IsInt() {
      IsIntText(Raw())
    }

    /** The id `parseInt` and PostgreSQL both read from a value that passed `isInt()`. */
    function Id(): int
      requires IsInt()
    {
      IntValue(Raw())
    }
  }

  /** A JSON integer always passes `isInt()` and is read back as itself. */
  lemma NumberIsInt(n: int)
    ensures Num(n).IsInt() && Num(n).Id() == n
  {
    var m := if n < 0 then -n else n;
    DecimalValueOfString(m);
    if n < 0 {
      assert ("-" + DecimalString(m))[1..] == DecimalString(m);
    }
  }

  /**
   * A `+` sign or a leading zero changes the text that `===` compares, but not the
   * id; a `-` sign negates it.
   */
  lemma SignAndZeroKeepId(digits: string)
    requires |digits| > 0 && forall i :: 0 <= i < |digits| ==> IsDigit(digits[i])
    ensures Str(digits).IsInt() && Str("+" + digits).IsInt() && Str("0" + digits).IsInt() && Str("-" + digits).IsInt()
    ensures Str("+" + digits).Id() == Str("0" + digits).Id() == Str(digits).Id() >= 0
    ensures Str("-" + digits).Id() == -Str(digits).Id()
    ensures "+" + digits != digits && "0" + digits != digits
  {
    assert ("+" + digits)[1..] == digits;
    assert ("-" + digits)[1..] == digits;
    DecimalValueLeadingZero(digits);
    assert |"0" + digits| != |digits|;
  }

  /** `depositWithdrawValidation`: the messages of the failed field rules in field order. */
  function DepositWithdrawErrors(accountId: IdParam, cents: int): (errors: seq<string>)
    ensures errors == [] <==> accountId.IsInt() && cents > 0
    ensures AmountMessage in errors <==> cents <= 0
    ensures "Invalid account ID" in errors <==> !accountId.IsInt()
  {
    (if accountId.IsInt() then [] else ["Invalid account ID"])
    + (if IsPositiveAmount(cents) then [] else [AmountMessage])
  }

  /** `transferValidation`: the messages of the failed field rules in field order. */
  function TransferErrors(from: IdParam, to: IdParam, cents: int): (errors: seq<string>)
    ensures errors == [] <==> from.IsInt() && to.IsInt() && cents > 0
    ensures "Invalid from account ID" in errors <==> !from.IsInt()
    ensures "Invalid to account ID" in errors <==> !to.IsInt()
    ensures AmountMessage in errors <==> cents <= 0
    ensures |errors| <= 3
  {
    (if from.IsInt() then [] else ["Invalid from account ID"])
    + (if to.IsInt() then [] else ["Invalid to account ID"])
    + (if IsPositiveAmount(cents) then [] else [AmountMessage])
  }
}
