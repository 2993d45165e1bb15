/**
 * The SMS service's pure parts (backend/services/smsService.js): Kenyan
 * phone formatting and the message templates. Delivery itself is output.
 */
module SmsService {
  import opened Wrappers
  import opened Text
  import Validation

  datatype SmsError = PhoneRequired | InvalidFormat

  /**
   * `formatPhoneNumber`: trims, strips non-digits, then rewrites a leading
   * 0 to 254, prefixes a leading 7 with 254, keeps a leading 254, and
   * refuses anything else (an empty digit string included).
   */
  function FormatPhoneNumber(phone: Option<string>): (r: Result<string, SmsError>)
    ensures r == Err(PhoneRequired) <==> phone.None? || phone.value == []
    ensures r.Ok? ==> AllDigits(r.value) && IsPrefix("254", r.value)
  {
    match phone
    case None => Err(PhoneRequired)
    case Some(p) =>
      if p == [] then Err(PhoneRequired) else WithCountryCode(KeepDigits(Trim(p)))
  }

  /** The prefix rules applied to the digits of a phone. */
  function WithCountryCode(d: string): (r: Result<string, SmsError>)
    requires AllDigits(d)
    ensures r != Err(PhoneRequired)
    ensures r.Ok? ==> AllDigits(r.value) && IsPrefix("254", r.value)
  {
    if IsPrefix("0", d) then Ok("254" + d[1..])
    else if IsPrefix("7", d) then Ok("254" + d)
    else if IsPrefix("254", d) then Ok(d)
    else Err(InvalidFormat)
  }

  /** The rewriting rules, stated on the digits `d` of the submitted phone. */
  lemma FormatPhoneRules(p: string, d: string)
    requires p != [] && d == KeepDigits(p)
    ensures IsPrefix("0", d) ==> FormatPhoneNumber(Some(p)) == Ok("254" + d[1..])
    ensures IsPrefix("7", d) ==> FormatPhoneNumber(Some(p)) == Ok("254" + d)
    ensures IsPrefix("254", d) ==> FormatPhoneNumber(Some(p)) == Ok(d)
    ensures !IsPrefix("0", d) && !IsPrefix("7", d) && !IsPrefix("254", d) ==> FormatPhoneNumber(Some(p)) == Err(InvalidFormat)
  {
    FormatOnDigits(p);
    PrefixRules(d);
  }

  /** Formatting depends only on the digits of the phone: trimming first changes none of them. */
  lemma FormatOnDigits(p: string)
    requires p != []
    ensures FormatPhoneNumber(Some(p)) == WithCountryCode(KeepDigits(p))
  {
    KeepDigitsIgnoresTrim(p);
  }

  /** The four prefix cases of `WithCountryCode`, one per branch. */
  lemma PrefixRules(d: string)
    requires AllDigits(d)
    ensures IsPrefix("0", d) ==> WithCountryCode(d) == Ok("254" + d[1..])
    ensures IsPrefix("7", d) ==> WithCountryCode(d) == Ok("254" + d)
    ensures IsPrefix("254", d) ==> WithCountryCode(d) == Ok(d)
    ensures !IsPrefix("0", d) && !IsPrefix("7", d) && !IsPrefix("254", d) ==> WithCountryCode(d) == Err(InvalidFormat)
  {
    if IsPrefix("254", d) {
      assert d[0] == '2';
    }
  }

  /** A phone without a single digit is refused as badly formatted. */
  lemma DigitlessPhoneRefused(p: string)
    requires p != [] && KeepDigits(p) == []
    ensures FormatPhoneNumber(Some(p)) == Err(InvalidFormat)
  {
    FormatOnDigits(p);
  }

  /** Formatting an already formatted number changes nothing. */
  lemma FormatPhoneIdempotent(p: string)
    requires FormatPhoneNumber(Some(p)).Ok?
    ensures FormatPhoneNumber(Some(FormatPhoneNumber(Some(p)).value)) == FormatPhoneNumber(Some(p))
  {
    var r := FormatPhoneNumber(Some(p)).value;
    TrimOfDigits(r);
    assert FormatPhoneNumber(Some(r)) == WithCountryCode(r);
    CodePrefixKept(r);
  }

  /** A number already carrying 254 matches neither the 0 nor the 7 rule. */
  lemma CodePrefixKept(r: string)
    requires AllDigits(r) && IsPrefix("254", r)
    ensures WithCountryCode(r) == Ok(r)
  {
    assert r[0] == '2';
  }

  /**
   * Every phone the registration validator accepts formats to a 12-digit
   * number starting 2547 or 2541: 07… and 01… gain the country code.
   */
  lemma KenyanPhonesFormat(n: string)
    requires Validation.MatchesKenyanPattern(n)
    ensures var r := FormatPhoneNumber(Some(n));
      && r.Ok? && |r.value| == 12
      && (r.value[..4] == "2547" || r.value[..4] == "2541")
  {
    Validation.KenyanPatternShape(n);
    assert FormatPhoneNumber(Some(n)) == WithCountryCode(n) by {
      TrimOfDigits(n);
    }
    if |n| == 10 {
      LocalGainsCode(n);
    } else {
      InternationalKept(n);
    }
  }

  /** A 10-digit 07… or 01… number loses its 0 and gains 254. */
  lemma LocalGainsCode(n: string)
    requires AllDigits(n) && |n| == 10 && (n[..2] == "07" || n[..2] == "01")
    ensures WithCountryCode(n) == Ok("254" + n[1..])
    ensures |"254" + n[1..]| == 12
    ensures ("254" + n[1..])[..4] == "2547" || ("254" + n[1..])[..4] == "2541"
  {
    assert n[0] == n[..2][0] == '0';
    assert IsPrefix("0", n);
    var r := "254" + n[1..];
    assert r[..4] == "254" + [n[1]];
    assert n[1] == n[..2][1];
  }

  /** A 12-digit 2547… or 2541… number is kept as it is. */
  lemma InternationalKept(n: string)
    requires AllDigits(n) && |n| == 12 && (n[..4] == "2547" || n[..4] == "2541")
    ensures WithCountryCode(n) == Ok(n)
  {
    assert n[0] == n[..4][0] == '2';
    assert !IsPrefix("0", n) && !IsPrefix("7", n);
    assert n[..3] == n[..4][..3];
  }

  /* ------------------------------------------------------------ messages */

  const CodeHead := "Your JuaKazi verification code is: "
  const Validity := "Valid for 10 minutes."

  /** `sendVerificationCode`'s text: it carries the code and states ten-minute validity. */
  function VerificationMessage(code: string): (m: string)
    ensures Contains(m, code)
    ensures Contains(m, Validity)
  {
    var m := CodeHead + code + ". " + Validity;
    assert m == CodeHead + code + (". " + Validity);
    ContainsInfix(CodeHead, code, ". " + Validity);
    assert m == (CodeHead + code + ". ") + Validity + [];
    ContainsInfix(CodeHead + code + ". ", Validity, []);
    m
  }

  /** The job fields an alert reads; each may be missing. */
  datatype AlertJob = AlertJob(title: Option<string>, county: Option<string>, amount: Option<real>)

  const AlertHead := "\U{1F4E2} JOB ALERT: "
  const AlertTail := ". Reply YES to apply."

  /** `x || fallback` for an optional string. */
  function OrElse(x: Option<string>, fallback: string): (r: string)
    ensures x.None? || x.value == [] ==> r == fallback
    ensures x.Some? && x.value != [] ==> r == x.value
  {
    if x.Some? && x.value != [] then x.value else fallback
  }

  /** `job?.title || 'New job'`. */
  function AlertTitle(job: Option<AlertJob>): (r: string)
    ensures r != []
    ensures job.Some? && job.value.title.Some? && job.value.title.value != [] ==> r == job.value.title.value
    ensures job.None? || job.value.title.None? || job.value.title.value == [] ==> r == "New job"
  {
    OrElse(if job.Some? then job.value.title else None, "New job")
  }

  /** `job?.location?.county || 'your area'`. */
  function AlertCounty(job: Option<AlertJob>): (r: string)
    ensures r != []
    ensures job.Some? && job.value.county.Some? && job.value.county.value != [] ==> r == job.value.county.value
    ensures job.None? || job.value.county.None? || job.value.county.value == [] ==> r == "your area"
  {
    OrElse(if job.Some? then job.value.county else None, "your area")
  }

  /**
   * `job?.salary?.amount?.toLocaleString() || 'Negotiable'`. `formatAmount`
   * stands for the locale-dependent `toLocaleString`; an empty rendering is
   * falsy and falls back like a missing amount.
   */
  function AlertAmount(job: Option<AlertJob>, formatAmount: real -> string): (r: string)
    ensures r != []
    ensures job.Some? && job.value.amount.Some? && formatAmount(job.value.amount.value) != [] ==>
      r == formatAmount(job.value.amount.value)
    ensures job.None? || job.value.amount.None? || formatAmount(job.value.amount.value) == [] ==> r == "Negotiable"
  {
    OrElse(if job.Some? && job.value.amount.Some? then Some(formatAmount(job.value.amount.value)) else None, "Negotiable")
  }

  /**
   * `sendJobAlert`'s text: it opens with the alert banner, names the title,
   * the county and the amount, each or its fallback, and closes with the
   * reply instruction.
   */
  function JobAlertMessage(job: Option<AlertJob>, formatAmount: real -> string): (m: string)
    ensures IsPrefix(AlertHead + AlertTitle(job) + " in ", m)
    ensures |AlertTail| <= |m| && m[|m| - |AlertTail|..] == AlertTail
    ensures Contains(m, AlertTitle(job)) && Contains(m, AlertCounty(job)) && Contains(m, AlertAmount(job, formatAmount))
  {
    var m := AlertHead + AlertTitle(job) + " in " + AlertCounty(job) + ". Salary: KSh " + AlertAmount(job, formatAmount) + AlertTail;
    Template(AlertHead, AlertTitle(job), " in ", AlertCounty(job), ". Salary: KSh ", AlertAmount(job, formatAmount), AlertTail);
    m
  }

  /** A text built from fixed pieces and three fields holds each field, starts with its first pieces and ends with its last. */
  lemma Template(a: string, x: string, b: string, y: string, c: string, z: string, d: string)
    ensures var m := a + x + b + y + c + z + d;
      && IsPrefix(a + x + b, m) && |d| <= |m| && m[|m| - |d|..] == d
      && Contains(m, x) && Contains(m, y) && Contains(m, z)
  {
    var m := a + x + b + y + c + z + d;
    assert m == (a + x + b) + (y + c + z + d);
    assert m == (a + x + b + y + c + z) + d;
    ContainsInfix(a, x, b + y + c + z + d);
    assert a + x + (b + y + c + z + d) == m;
    ContainsInfix(a + x + b, y, c + z + d);
    assert a + x + b + y + (c + z + d) == m;
    ContainsInfix(a + x + b + y + c, z, d);
  }

  /** A missing job reads like a job with none of its fields. */
  lemma MissingJobReadsAsEmpty(formatAmount: real -> string)
    ensures JobAlertMessage(None, formatAmount) == JobAlertMessage(Some(AlertJob(None, None, None)), formatAmount)
  {
  }
}
