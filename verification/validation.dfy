/**
 * The request validation middleware: phone normalisation and the three
 * validators that collect a list of error messages before the request
 * reaches a controller (backend/middleware/validation.js).
 */
module Validation {
  import opened Wrappers
  import opened Js
  import opened Text
  import Seqs

  /* ------------------------------------------------------------ phones */

  /** `normalizePhone`: null for a missing or empty phone, otherwise the phone with white space and non-digits removed. */
  function NormalizePhone(phone: Option<string>): (r: Option<string>)
    ensures r.None? <==> phone.None? || phone.value == []
    ensures r.Some? ==> AllDigits(r.value) && |r.value| <= |phone.value|
  {
    match phone
    case None => None
    case Some(p) => if p == [] then None else Some(KeepDigits(RemoveSpaces(p)))
  }

  /** Normalising keeps exactly the digits of the input, in their original order. */
  lemma NormalizePhoneKeepsDigits(p: string)
    requires p != []
    ensures NormalizePhone(Some(p)) == Some(KeepDigits(p))
  {
    KeepDigitsIgnoresSpaces(p);
  }

  /** A normalised phone with at least one digit normalises to itself. */
  lemma NormalizePhoneIdempotent(p: string)
    requires NormalizePhone(Some(p)).Some? && NormalizePhone(Some(p)).value != []
    ensures NormalizePhone(NormalizePhone(Some(p))) == NormalizePhone(Some(p))
  {
    var d := NormalizePhone(Some(p)).value;
    KeepDigitsIgnoresSpaces(d);
  }

  /** A non-empty phone without digits normalises to "", which a second pass turns into null. */
  lemma NormalizePhoneTwiceDropsDigitless()
    ensures NormalizePhone(Some("ab")) == Some("")
    ensures NormalizePhone(NormalizePhone(Some("ab"))) == None
  {
  }

  /** Normalising does not rewrite a local prefix: 0712345678 stays 0712345678. */
  lemma NormalizePhoneKeepsLocalPrefix()
    ensures NormalizePhone(Some("0712345678")) == Some("0712345678")
  {
    var p := "0712345678";
    assert AllDigits(p);
    NormalizePhoneKeepsDigits(p);
  }

  /** `p` followed by exactly eight digits. */
  predicate PrefixThenEightDigits(p: string, s: string) {
    IsPrefix(p, s) && |s| == |p| + 8 && AllDigits(s[|p|..])
  }

  /** `/^(2547|2541|07|01)\d{8}$/.test(s)`. */
  predicate MatchesKenyanPattern(s: string) {
    PrefixThenEightDigits("2547", s) || PrefixThenEightDigits("2541", s)
    || PrefixThenEightDigits("07", s) || PrefixThenEightDigits("01", s)
  }

  /** The Kenyan pattern accepts exactly the 12-digit 2547/2541 numbers and the 10-digit 07/01 numbers. */
  lemma KenyanPatternShape(s: string)
    ensures MatchesKenyanPattern(s) <==>
      AllDigits(s)
      && ((|s| == 12 && (s[..4] == "2547" || s[..4] == "2541"))
          || (|s| == 10 && (s[..2] == "07" || s[..2] == "01")))
  {
    if MatchesKenyanPattern(s) {
      var p := if PrefixThenEightDigits("2547", s) then "2547"
        else if PrefixThenEightDigits("2541", s) then "2541"
        else if PrefixThenEightDigits("07", s) then "07" else "01";
      assert s == s[..|p|] + s[|p|..];
      assert AllDigits(p);
      forall i | 0 <= i < |s| ensures IsDigit(s[i]) {
        if i < |p| { assert s[i] == p[i]; } else { assert s[i] == s[|p|..][i - |p|]; }
      }
    }
  }

  /* ------------------------------------------------------ registration */

  /** The fields of a registration request body the validator and the controller read. */
  datatype RegistrationBody = RegistrationBody(
    userType: Option<string>,
    name: Option<string>,
    phone: Option<string>,
    email: Option<string>,
    password: Option<string>,
    location: Value,
    skills: Value)

  const UserTypeError := "User type must be either " + "\"worker\" or \"employer\""
  const NameError := "Name must be at least " + "2 characters long"
  const PhoneError := "Please enter a valid " + "Kenyan phone number " + "(e.g., 0712345678 or " + "254712345678)"
  const PasswordError := "Password must be at least " + "6 characters long"
  const LocationError := "Location is required"

  /** The registration checks, in the order the validator runs them. */
  const RegistrationMessages: seq<string> := [UserTypeError, NameError, PhoneError, PasswordError, LocationError]

  /** Only workers and employers may register themselves; `admin` is refused. */
  predicate UserTypeOk(b: RegistrationBody) {
    b.userType == Some("worker") || b.userType == Some("employer")
  }

  predicate NameOk(b: RegistrationBody) {
    b.name.Some? && |Trim(b.name.value)| >= 2
  }

  /** The check runs on the normalised phone, not on the phone as submitted. */
  predicate PhoneOk(b: RegistrationBody) {
    var n := NormalizePhone(b.phone);
    n.Some? && n.value != [] && MatchesKenyanPattern(n.value)
  }

  predicate PasswordOk(b: RegistrationBody) {
    b.password.Some? && |b.password.value| >= 6
  }

  predicate LocationOk(b: RegistrationBody) {
    b.location.Str? && b.location.s != []
  }

  /** Which registration message applies to `b`. */
  predicate RegistrationFails(b: RegistrationBody, m: string) {
    (m == UserTypeError && !UserTypeOk(b))
    || (m == NameError && !NameOk(b))
    || (m == PhoneError && !PhoneOk(b))
    || (m == PasswordError && !PasswordOk(b))
    || (m == LocationError && !LocationOk(b))
  }

  predicate RegistrationValid(b: RegistrationBody) {
    UserTypeOk(b) && NameOk(b) && PhoneOk(b) && PasswordOk(b) && LocationOk(b)
  }

  /**
   * `validateRegistration`: the error list, appended check by check. It is
   * the fixed message list restricted to the failing checks, so it keeps
   * the check order, and the request passes exactly when it is empty.
   */
  function ValidateRegistration(b: RegistrationBody): (errors: seq<string>)
    ensures errors == [] <==> RegistrationValid(b)
    ensures |errors| <= 5
  {
    var e1 := if UserTypeOk(b) then [] else [UserTypeError];
    var e2 := e1 + (if NameOk(b) then [] else [NameError]);
    var e3 := e2 + (if PhoneOk(b) then [] else [PhoneError]);
    var e4 := e3 + (if PasswordOk(b) then [] else [PasswordError]);
    e4 + (if LocationOk(b) then [] else [LocationError])
  }

  /**
   * The registration errors are the fixed message list restricted to the
   * failing checks: each message appears once, exactly when its check
   * fails, in check order.
   */
  lemma RegistrationErrorsInCheckOrder(b: RegistrationBody)
    ensures ValidateRegistration(b) == Seqs.Filter(RegistrationMessages, m => RegistrationFails(b, m))
  {
    FilterFive(RegistrationMessages, m => RegistrationFails(b, m));
  }

  /** Unfolds a filter over a five-element list. */
  lemma FilterFive<T>(s: seq<T>, p: T -> bool)
    requires |s| == 5
    ensures Seqs.Filter(s, p) ==
      (if p(s[0]) then [s[0]] else []) + (if p(s[1]) then [s[1]] else [])
      + (if p(s[2]) then [s[2]] else []) + (if p(s[3]) then [s[3]] else [])
      + (if p(s[4]) then [s[4]] else [])
  {
    Seqs.FilterSnoc(s, p);
    FilterFour(s[..4], p);
  }

  /** Unfolds a filter over a four-element list. */
  lemma FilterFour<T>(s: seq<T>, p: T -> bool)
    requires |s| == 4
    ensures Seqs.Filter(s, p) ==
      (if p(s[0]) then [s[0]] else []) + (if p(s[1]) then [s[1]] else [])
      + (if p(s[2]) then [s[2]] else []) + (if p(s[3]) then [s[3]] else [])
  {
    Seqs.FilterSnoc(s, p);
    Seqs.FilterSnoc(s[..3], p);
    assert s[..3][..2] == s[..2];
    FilterTwo(s[..2], p);
  }

  /** Unfolds a filter over a two-element list. */
  lemma FilterTwo<T>(s: seq<T>, p: T -> bool)
    requires |s| == 2
    ensures Seqs.Filter(s, p) == (if p(s[0]) then [s[0]] else []) + (if p(s[1]) then [s[1]] else [])
  {
    Seqs.FilterSnoc(s, p);
    assert s[..1] == [s[0]];
    Seqs.FilterCons(s[..1], p);
  }

  /** Every phone the registration validator accepts is made of digits only and has 10 or 12 of them. */
  lemma AcceptedPhoneShape(b: RegistrationBody)
    requires PhoneOk(b)
    ensures var n := NormalizePhone(b.phone).value; AllDigits(n) && (|n| == 10 || |n| == 12)
  {
    KenyanPatternShape(NormalizePhone(b.phone).value);
  }

  /* ------------------------------------------------------------- login */

  const PhoneRequiredError := "Phone number is required"
  const PasswordRequiredError := "Password is required"
  const LoginMessages: seq<string> := [PhoneRequiredError, PasswordRequiredError]

  predicate LoginFails(phone: Value, password: Value, m: string) {
    (m == PhoneRequiredError && !Truthy(phone)) || (m == PasswordRequiredError && !Truthy(password))
  }

  /** `validateLogin`: an error exactly for a missing phone and for a missing password, in that order. */
  function ValidateLogin(phone: Value, password: Value): (errors: seq<string>)
    ensures errors == Seqs.Filter(LoginMessages, m => LoginFails(phone, password, m))
    ensures errors == [] <==> Truthy(phone) && Truthy(password)
  {
    var e1 := if Truthy(phone) then [] else [PhoneRequiredError];
    var e2 := e1 + (if Truthy(password) then [] else [PasswordRequiredError]);
    FilterTwo(LoginMessages, m => LoginFails(phone, password, m));
    e2
  }

  /* ------------------------------------------------------- job posting */

  datatype JobPostingBody = JobPostingBody(title: Option<string>, description: Option<string>, salary: Value, location: Value)

  const TitleError := "Job title must be at least " + "5 characters long"
  const DescriptionError := "Job description must be " + "at least 20 characters long"
  const SalaryError := "Salary amount must be " + "a number greater than 0"
  const JobLocationError := "Location is required"
  const JobPostingMessages: seq<string> := [TitleError, DescriptionError, SalaryError, JobLocationError]

  predicate TitleOk(b: JobPostingBody) {
    b.title.Some? && |Trim(b.title.value)| >= 5
  }

  predicate DescriptionOk(b: JobPostingBody) {
    b.description.Some? && |Trim(b.description.value)| >= 20
  }

  /**
   * The salary must be an object whose `amount` has type number and is not
   * `<= 0`; NaN has type number and fails `<= 0`, so it passes.
   */
  predicate SalaryOk(b: JobPostingBody) {
    var amount := Get(b.salary, "amount");
    Truthy(b.salary) && TypeOf(b.salary) == "object"
    && ((amount.Num? && amount.n > 0.0) || amount.NotANumber?)
  }

  predicate JobPostingFails(b: JobPostingBody, m: string) {
    (m == TitleError && !TitleOk(b))
    || (m == DescriptionError && !DescriptionOk(b))
    || (m == SalaryError && !SalaryOk(b))
    || (m == JobLocationError && !Truthy(b.location))
  }

  /** The four messages differ from one another. */
  lemma JobPostingMessagesDistinct()
    ensures TitleError != DescriptionError && TitleError != SalaryError && TitleError != JobLocationError
    ensures DescriptionError != SalaryError && DescriptionError != JobLocationError
    ensures SalaryError != JobLocationError
  {
    assert TitleError[4] == 't' && DescriptionError[4] == 'd';
    assert TitleError[0] == 'J' && SalaryError[0] == 'S' && JobLocationError[0] == 'L';
  }

  /** `validateJobPosting`: title, description, salary and location checks, in that order. */
  function ValidateJobPosting(b: JobPostingBody): (errors: seq<string>)
    ensures errors == [] <==> TitleOk(b) && DescriptionOk(b) && SalaryOk(b) && Truthy(b.location)
    ensures |errors| <= 4
  {
    var e1 := if TitleOk(b) then [] else [TitleError];
    var e2 := e1 + (if DescriptionOk(b) then [] else [DescriptionError]);
    var e3 := e2 + (if SalaryOk(b) then [] else [SalaryError]);
    e3 + (if Truthy(b.location) then [] else [JobLocationError])
  }

  /**
   * The job-posting errors are the fixed message list restricted to the
   * failing checks: each message appears once, exactly when its check
   * fails, in check order.
   */
  lemma JobPostingErrorsInCheckOrder(b: JobPostingBody)
    ensures ValidateJobPosting(b) == Seqs.Filter(JobPostingMessages, m => JobPostingFails(b, m))
  {
    var fails := m => JobPostingFails(b, m);
    assert fails(TitleError) == !TitleOk(b) && fails(DescriptionError) == !DescriptionOk(b)
      && fails(SalaryError) == !SalaryOk(b) && fails(JobLocationError) == !Truthy(b.location)
    by {
      JobPostingMessagesDistinct();
    }
    FilterFour(JobPostingMessages, fails);
  }

  /** A salary given as a bare number, or as an object without a positive numeric amount, is refused. */
  lemma SalaryMustBeObjectWithPositiveAmount(b: JobPostingBody)
    requires SalaryOk(b)
    ensures b.salary.Obj?
    ensures "amount" in b.salary.fields
    ensures var a := b.salary.fields["amount"]; (a.Num? && a.n > 0.0) || a.NotANumber?
  {
  }
}
