/** Input validation for the two checked profile fields (utils/validators.py).
    The regex classes are modelled on ASCII: `\w` as letters, digits and `_`,
    `\s` as the ASCII whitespace of `Text.IsSpace`, `\d` as `0`-`9`. Python's
    `$` (no MULTILINE) matches at the end of the text or just before a final
    newline, and the model keeps that. */
module Validators {
  import opened Text

  predicate IsWordChar(c: char) {
    'a' <= c <= 'z' || 'A' <= c <= 'Z' || '0' <= c <= '9' || c == '_'
  }

  /** The class `[\w\.-]` of the local part and of the domain. */
  predicate IsAddressChar(c: char) {
    IsWordChar(c) || c == '.' || c == '-'
  }

  predicate AllAddressChars(s: string) {
    forall i :: 0 <= i < |s| ==> IsAddressChar(s[i])
  }

  predicate AllWordChars(s: string) {
    forall i :: 0 <= i < |s| ==> IsWordChar(s[i])
  }

  /** `[\w\.-]+\.\w+` matching the whole domain: some period splits it into a
      non-empty part of address characters and a non-empty part of word characters. */
  predicate IsDomain(d: string) {
    exists j :: 0 < j < |d| - 1 && DomainSplitAt(d, j)
  }

  predicate DomainSplitAt(d: string, j: int)
    requires 0 < j < |d| - 1
  {
    d[j] == '.' && AllAddressChars(d[..j]) && AllWordChars(d[j + 1..])
  }

  /** `[\w\.-]+@[\w\.-]+\.\w+` matching the whole text. */
  predicate IsEmailBody(s: string) {
    exists i :: 0 < i < |s| && EmailSplitAt(s, i)
  }

  predicate EmailSplitAt(s: string, i: int)
    requires 0 < i < |s|
  {
    s[i] == '@' && AllAddressChars(s[..i]) && IsDomain(s[i + 1..])
  }

  /** `validate_email`: `re.match(r'^[\w\.-]+@[\w\.-]+\.\w+$', email)`. */
  predicate ValidateEmail(email: string) {
    IsEmailBody(email) || (email != [] && email[|email| - 1] == '\n' && IsEmailBody(email[..|email| - 1]))
  }

  /** The class `[\d\s\-\(\)\+]`. */
  predicate IsPhoneChar(c: char) {
    '0' <= c <= '9' || IsSpace(c) || c == '-' || c == '(' || c == ')' || c == '+'
  }

  predicate AllPhoneChars(s: string) {
    forall i :: 0 <= i < |s| ==> IsPhoneChar(s[i])
  }

  predicate IsPhoneBody(s: string) {
    7 <= |s| <= 20 && AllPhoneChars(s)
  }

  /** `validate_phone`: `re.match(r'^[\d\s\-\(\)\+]{7,20}$', phone)`. */
  predicate ValidatePhone(phone: string) {
    IsPhoneBody(phone) || (phone != [] && phone[|phone| - 1] == '\n' && IsPhoneBody(phone[..|phone| - 1]))
  }

  const EMAIL_ERROR: string :=
    "That doesn't appear to be " + "a valid email address. Please " + "provide a valid email in "
    + "the format example@domain.com."
  const PHONE_ERROR: string :=
    "That doesn't appear to be " + "a valid phone number. Please " + "provide a valid phone number."

  /** The dictionary `validate_input` returns. */
  datatype Validation = Valid | Invalid(fieldType: string, error: string)

  /** `validate_input(step, input)`: only the `email` and `phone` steps are checked. */
  function ValidateInput(step: string, input: string): (v: Validation)
    ensures v.Valid? <==> (step == "email" ==> ValidateEmail(input)) && (step == "phone" ==> ValidatePhone(input))
    ensures step != "email" && step != "phone" ==> v == Valid
    ensures step == "email" && !ValidateEmail(input) ==> v == Invalid("email address", EMAIL_ERROR)
    ensures step == "phone" && !ValidatePhone(input) ==> v == Invalid("phone number", PHONE_ERROR)
  {
    if step == "email" then
      if !ValidateEmail(input) then Invalid("email address", EMAIL_ERROR) else Valid
    else if step == "phone" then
      if !ValidatePhone(input) then Invalid("phone number", PHONE_ERROR) else Valid
    else Valid
  }

  /** The phone pattern accepts exactly: 7 to 20 phone characters, or 21 phone
      characters of which the last is a newline (`$` matching before it). */
  lemma PhoneShape(phone: string)
    ensures ValidatePhone(phone) <==>
              AllPhoneChars(phone) && (7 <= |phone| <= 20 || (|phone| == 21 && phone[20] == '\n'))
  {
    if phone != [] && phone[|phone| - 1] == '\n' && IsPhoneBody(phone[..|phone| - 1]) {
      assert IsPhoneChar('\n');
      forall i | 0 <= i < |phone| ensures IsPhoneChar(phone[i]) {
        if i < |phone| - 1 { assert phone[i] == phone[..|phone| - 1][i]; }
      }
    }
    if AllPhoneChars(phone) && |phone| == 21 && phone[20] == '\n' {
      assert IsPhoneBody(phone[..20]);
    }
  }

  /** An address the pattern matches without a final newline holds exactly
      one `@`, preceded by a non-empty local part, and ends in a word
      character. */
  lemma EmailShape(email: string)
    requires IsEmailBody(email)
    ensures exists i :: 0 < i < |email| && email[i] == '@'
    ensures forall i, k :: 0 <= i < |email| && 0 <= k < |email| && email[i] == '@' && email[k] == '@' ==> i == k
    ensures IsWordChar(email[|email| - 1])
  {
    var i :| 0 < i < |email| && EmailSplitAt(email, i);
    var d := email[i + 1..];
    var j :| 0 < j < |d| - 1 && DomainSplitAt(d, j);
    forall a | 0 <= a < i ensures email[a] != '@' {
      assert email[a] == email[..i][a];
    }
    forall a | i < a < |email| ensures email[a] != '@' {
      var b := a - i - 1;
      assert email[a] == d[b];
      if b < j {
        assert d[b] == d[..j][b];
      } else if b > j {
        assert d[b] == d[j + 1..][b - j - 1];
      }
    }
    assert d[j + 1..][|d| - j - 2] == email[|email| - 1];
  }

  lemma SampleEmails()
    ensures ValidateEmail("a@b.co")
    ensures !ValidateEmail("not-an-email")
  {
    var good := "a@b.co";
    var d := good[2..];
    assert d == "b.co";
    assert AllWordChars(d[2..]) by { assert d[2..] == "co"; }
    assert DomainSplitAt(d, 1);
    assert EmailSplitAt(good, 1);
    var bad := "not-an-email";
    assert forall k :: 0 <= k < |bad| ==> bad[k] != '@';
    assert bad[|bad| - 1] != '\n';
  }

  lemma SampleValidation()
    ensures ValidateInput("email", "not-an-email") == Invalid("email address", EMAIL_ERROR)
    ensures ValidateInput("email", "a@b.co") == Valid
  {
    SampleEmails();
  }
}
