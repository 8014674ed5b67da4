/** The registration page: the form's validation schema (username and
    password patterns, required fields, matching confirmation), the numeric
    id a new user is given, and the record that is submitted. */
module Registration {
  import opened JsValues

  // ---------------------------------------------------------------------------
  // Username: /^[A-Za-z]+(?: [A-Za-z]+)*$/
  // ---------------------------------------------------------------------------

  predicate IsAsciiLetter(c: char) {
    'A' <= c <= 'Z' || 'a' <= c <= 'z'
  }

  /** Runs the username pattern over `s`; `inWord` says that the character
      before `s` was a letter, so that a space may follow. */
  predicate ScanUsername(s: string, inWord: bool) {
    if s == [] then inWord
    else if IsAsciiLetter(s[0]) then ScanUsername(s[1..], true)
    else s[0] == ' ' && inWord && ScanUsername(s[1..], false)
  }

  /** The username pattern accepts exactly one or more letter words separated by single spaces. */
  predicate MatchesUsernamePattern(s: string)
    ensures MatchesUsernamePattern(s) <==> WordsSeparatedBySingleSpaces(s)
  {
    ScanUsernameCorrect(s, false);
    ScanUsername(s, false)
  }

  /** One or more words of ASCII letters, separated by single spaces. */
  ghost predicate WordsSeparatedBySingleSpaces(s: string) {
    && |s| > 0
    && (forall i :: 0 <= i < |s| ==> IsAsciiLetter(s[i]) || s[i] == ' ')
    && s[0] != ' '
    && s[|s| - 1] != ' '
    && (forall i :: 0 <= i < |s| - 1 ==> s[i] == ' ' ==> s[i + 1] != ' ')
  }

  /** What `ScanUsername(s, inWord)` accepts, stated without the scan. */
  ghost predicate UsernameSuffixOk(s: string, inWord: bool) {
    && (s == [] ==> inWord)
    && (forall i :: 0 <= i < |s| ==> IsAsciiLetter(s[i]) || s[i] == ' ')
    && (s != [] ==> s[|s| - 1] != ' ' && (s[0] == ' ' ==> inWord))
    && (forall i :: 0 <= i < |s| - 1 ==> s[i] == ' ' ==> s[i + 1] != ' ')
  }

  lemma {:induction false} ScanUsernameCorrect(s: string, inWord: bool)
    ensures ScanUsername(s, inWord) <==> UsernameSuffixOk(s, inWord)
  {
    if s != [] {
      var t := s[1..];
      assert forall i :: 1 <= i < |s| ==> s[i] == t[i - 1];
      ScanUsernameCorrect(t, IsAsciiLetter(s[0]));
      if s[0] == ' ' {
        ScanUsernameCorrect(t, false);
      }
    }
  }

  // ---------------------------------------------------------------------------
  // Password: /^(?=.*[A-Z])(?=.*\d)(?=.*[@$!%*?&#_])[A-Za-z\d@$!%*?&#_]{6,}$/
  // ---------------------------------------------------------------------------

  const SpecialChars: string := "@$!%*?&#_"

  predicate IsUpper(c: char) {
    'A' <= c <= 'Z'
  }

  predicate IsSpecial(c: char) {
    c in SpecialChars
  }

  predicate InPasswordCharset(c: char) {
    IsAsciiLetter(c) || IsDigit(c) || IsSpecial(c)
  }

  /** Runs the password pattern over `s`: `count` characters already read,
      and whether an upper-case letter, a digit and a special character were
      among them. */
  predicate ScanPassword(s: string, count: nat, upper: bool, digit: bool, special: bool) {
    if s == [] then count >= 6 && upper && digit && special
    else
      InPasswordCharset(s[0]) &&
      ScanPassword(s[1..], count + 1, upper || IsUpper(s[0]), digit || IsDigit(s[0]), special || IsSpecial(s[0]))
  }

  /** The password pattern accepts exactly the passwords of `PasswordRule`. */
  predicate MatchesPasswordPattern(s: string)
    ensures MatchesPasswordPattern(s) <==> PasswordRule(s)
  {
    ScanPasswordCorrect(s, 0, false, false, false);
    ScanPassword(s, 0, false, false, false)
  }

  /** At least six characters from the allowed set, with at least one
      upper-case letter, one digit and one special character. */
  ghost predicate PasswordRule(s: string) {
    && |s| >= 6
    && (forall i :: 0 <= i < |s| ==> InPasswordCharset(s[i]))
    && (exists i :: 0 <= i < |s| && IsUpper(s[i]))
    && (exists i :: 0 <= i < |s| && IsDigit(s[i]))
    && (exists i :: 0 <= i < |s| && IsSpecial(s[i]))
  }

  lemma {:induction false} ScanPasswordCorrect(s: string, count: nat, upper: bool, digit: bool, special: bool)
    ensures ScanPassword(s, count, upper, digit, special) <==>
      && count + |s| >= 6
      && (forall i :: 0 <= i < |s| ==> InPasswordCharset(s[i]))
      && (upper || exists i :: 0 <= i < |s| && IsUpper(s[i]))
      && (digit || exists i :: 0 <= i < |s| && IsDigit(s[i]))
      && (special || exists i :: 0 <= i < |s| && IsSpecial(s[i]))
  {
    if s != [] {
      var t := s[1..];
      assert forall i :: 1 <= i < |s| ==> s[i] == t[i - 1];
      assert forall i :: 0 <= i < |t| ==> t[i] == s[i + 1];
      ScanPasswordCorrect(t, count + 1, upper || IsUpper(s[0]), digit || IsDigit(s[0]), special || IsSpecial(s[0]));
    }
  }

  /** Lower-case letters are allowed but not required. */
  lemma LowercaseNotRequired()
    ensures MatchesPasswordPattern("PASS1#")
  {
  }

  // ---------------------------------------------------------------------------
  // The form schema
  // ---------------------------------------------------------------------------

  datatype FieldError = Required | PatternMismatch | InvalidEmail | PasswordsDiffer

  datatype RegistrationForm = RegistrationForm(username: string, email: string, userpass: string, conuserpass: string)

  datatype FormErrors = FormErrors(
    username: Option<FieldError>,
    email: Option<FieldError>,
    userpass: Option<FieldError>,
    conuserpass: Option<FieldError>)

  /** A string field that is required and must match a pattern. */
  function CheckPattern(value: string, matches: bool): Option<FieldError> {
    if value == "" then Some(Required)
    else if !matches then Some(PatternMismatch)
    else None
  }

  function CheckUsername(username: string): (e: Option<FieldError>)
    ensures e.None? <==> WordsSeparatedBySingleSpaces(username)
    ensures username == "" ==> e == Some(Required)
  {
    CheckPattern(username, MatchesUsernamePattern(username))
  }

  /** The e-mail field; `formatOk` is the outcome of the validation library's
      own e-mail check. */
  function CheckEmail(email: string, formatOk: bool): (e: Option<FieldError>)
    ensures e.None? <==> email != "" && formatOk
    ensures email == "" ==> e == Some(Required)
  {
    if email == "" then Some(Required)
    else if !formatOk then Some(InvalidEmail)
    else None
  }

  function CheckPassword(userpass: string): (e: Option<FieldError>)
    ensures e.None? <==> PasswordRule(userpass)
    ensures userpass == "" ==> e == Some(Required)
  {
    CheckPattern(userpass, MatchesPasswordPattern(userpass))
  }

  /** The confirmation is required and must be one of `[userpass]`: it is
      accepted exactly when it is a non-empty copy of the password. */
  function CheckConfirm(conuserpass: string, userpass: string): (e: Option<FieldError>)
    ensures e.None? <==> conuserpass == userpass && userpass != ""
    ensures conuserpass == "" ==> e == Some(Required)
  {
    if conuserpass == "" then Some(Required)
    else if conuserpass != userpass then Some(PasswordsDiffer)
    else None
  }

  /** The schema: the form passes exactly when every field rule holds. */
  function Validate(form: RegistrationForm, emailFormatOk: bool): (errors: FormErrors)
    ensures NoErrors(errors) <==>
      && WordsSeparatedBySingleSpaces(form.username)
      && form.email != "" && emailFormatOk
      && PasswordRule(form.userpass)
      && form.conuserpass == form.userpass
  {
    FormErrors(
      CheckUsername(form.username),
      CheckEmail(form.email, emailFormatOk),
      CheckPassword(form.userpass),
      CheckConfirm(form.conuserpass, form.userpass))
  }

  predicate NoErrors(e: FormErrors) {
    e.username.None? && e.email.None? && e.userpass.None? && e.conuserpass.None?
  }

  /** An empty field is reported as required, whatever the others hold. */
  lemma EmptyFieldsRequired(form: RegistrationForm, emailFormatOk: bool)
    ensures form.username == "" ==> Validate(form, emailFormatOk).username == Some(Required)
    ensures form.email == "" ==> Validate(form, emailFormatOk).email == Some(Required)
    ensures form.userpass == "" ==> Validate(form, emailFormatOk).userpass == Some(Required)
    ensures form.conuserpass == "" ==> Validate(form, emailFormatOk).conuserpass == Some(Required)
  {
  }

  // ---------------------------------------------------------------------------
  // Submitting the form
  // ---------------------------------------------------------------------------

  /** `Math.max(...ids)` for a non-empty list. */
  function MaxOf(ids: seq<int>): (m: int)
    requires |ids| > 0
    ensures forall i :: 0 <= i < |ids| ==> ids[i] <= m
    ensures m in ids
  {
    if |ids| == 1 then ids[0]
    else
      var m := MaxOf(ids[1..]);
      assert forall i :: 1 <= i < |ids| ==> ids[i] == ids[1..][i - 1];
      if ids[0] >= m then ids[0] else m
  }

  /** `newId`: one more than the largest existing id, and 1 when there are no users. */
  function NewId(ids: seq<int>): (n: int)
    ensures forall i :: 0 <= i < |ids| ==> ids[i] < n
    ensures |ids| == 0 ==> n == 1
    ensures |ids| > 0 ==> n - 1 in ids
  {
    if |ids| > 0 then MaxOf(ids) + 1 else 1
  }

  /** `newUser`: `image || ""` defaults the picture to the empty string. */
  function NewUser(form: RegistrationForm, id: int, image: Option<string>): (user: Record)
    ensures user.Keys == {"id", "name", "email", "password", "image"}
    ensures user["id"] == Num(id)
    ensures user["name"] == Str(form.username) && user["email"] == Str(form.email)
    ensures user["password"] == Str(form.userpass)
    ensures user["image"] == Str(if image.None? || image.value == "" then "" else image.value)
  {
    map[
      "id" := Num(id),
      "name" := Str(form.username),
      "email" := Str(form.email),
      "password" := Str(form.userpass),
      "image" := Str(if image.Some? then image.value else "")]
  }

  datatype Outcome = Invalid(errors: FormErrors) | EmailTaken | Submitted(user: Record)

  /** Submitting the form: the schema runs first; `existingWithEmail` is the
      answer of the e-mail lookup, `userIds` the numeric ids of all users and
      `image` the uploaded picture, if any. */
  function Register(form: RegistrationForm, emailFormatOk: bool, existingWithEmail: seq<Record>,
                    userIds: seq<int>, image: Option<string>): (out: Outcome)
    ensures out.Invalid? <==> !NoErrors(Validate(form, emailFormatOk))
    ensures out.EmailTaken? <==> NoErrors(Validate(form, emailFormatOk)) && |existingWithEmail| > 0
    ensures out.Submitted? ==>
      && out.user.Keys == {"id", "name", "email", "password", "image"}
      && out.user["name"] == Str(form.username)
      && out.user["email"] == Str(form.email)
      && out.user["password"] == Str(form.userpass)
      && (image.None? ==> out.user["image"] == Str(""))
      && (image.Some? ==> out.user["image"] == Str(image.value))
      && out.user["id"].Num?
      && (forall i :: 0 <= i < |userIds| ==> userIds[i] < out.user["id"].n)
      && (|userIds| == 0 ==> out.user["id"] == Num(1))
      && (|userIds| > 0 ==> out.user["id"].n - 1 in userIds)
  {
    var errors := Validate(form, emailFormatOk);
    if !NoErrors(errors) then Invalid(errors)
    else if |existingWithEmail| > 0 then EmailTaken
    else Submitted(NewUser(form, NewId(userIds), image))
  }
}
