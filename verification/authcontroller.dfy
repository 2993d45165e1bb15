/**
 * The account controller (backend/controllers/authController.js):
 * registration, login, phone verification with a ten-minute code, code
 * resend, password reset and profile update, over the user collection of
 * the store. The clock (`now`), `Math.random` (the integer `r`), bcrypt
 * (`hash`, `compare`) and JWT signing are parameters or left out; the SMS
 * side effects are left out.
 */
module AuthController {
  import opened Wrappers
  import opened Js
  import opened Text
  import opened Documents
  import opened UserSchema
  import opened Store
  import opened Validation
  import Seqs

  /** Why a request is refused; `SaveFailed` is the server error a failing `save()` produces. */
  datatype AuthError =
    | PhoneTaken
    | EmailTaken
    | InvalidCredentials
    | Deactivated
    | UserNotFound
    | AlreadyVerified
    | InvalidCode
    | CodeExpired
    | UpdateRejected
    | SaveFailed(reason: SaveError)

  /** Ten minutes, in milliseconds. */
  const CodeLifetime: int := 600000

  /**
   * `generateVerificationCode`, with `r` standing for
   * `Math.floor(Math.random() * 900000)`: a six-digit decimal string whose
   * value is in [100000, 999999].
   */
  function GenerateVerificationCode(r: nat): (code: string)
    requires r < 900000
    ensures |code| == 6 && AllDigits(code)
    ensures DigitsValue(code) == 100000 + r && 100000 <= DigitsValue(code) <= 999999
    ensures StringToNumber(code) == Num((100000 + r) as real)
  {
    var n := 100000 + r;
    CodeFacts(n);
    NatToString(n)
  }

  lemma CodeFacts(n: nat)
    requires 100000 <= n <= 999999
    ensures |NatToString(n)| == 6 && DigitsValue(NatToString(n)) == n
    ensures StringToNumber(NatToString(n)) == Num(n as real)
  {
    SixDigits(n);
    DigitsValueOfNatToString(n);
    NatToStringReadsBack(n);
  }

  /* ------------------------------------------------------------ lookups */

  /** `User.findById(id)`: the first user with this id, or `|users|`. */
  function FindById(users: seq<User>, id: Id): (k: nat)
    ensures k <= |users|
    ensures k < |users| ==> users[k].id == id
    ensures forall i :: 0 <= i < k ==> users[i].id != id
    ensures k == |users| <==> forall i :: 0 <= i < |users| ==> users[i].id != id
  {
    Seqs.FirstIndex(users, (u: User) => u.id == id)
  }

  /** `User.findOne({ email })` finds someone. */
  predicate EmailInUse(users: seq<User>, email: string) {
    exists i :: 0 <= i < |users| && Email in users[i].profile && users[i].profile[Email] == Str(email)
  }

  /** The users other than the one at `k`. */
  function Others(users: seq<User>, k: nat): (r: seq<User>)
    requires k < |users|
    ensures |r| == |users| - 1
    ensures forall i :: 0 <= i < |r| ==> r[i] == users[if i < k then i else i + 1]
  {
    users[..k] + users[k + 1..]
  }

  /** Every user besides the one at `k` is among the others. */
  lemma OthersCover(users: seq<User>, k: nat)
    requires k < |users|
    ensures forall i :: 0 <= i < |users| && i != k ==> users[i] == Others(users, k)[if i < k then i else i - 1]
  {
  }

  /** The password hook only hashes a modified password, so saves that keep it never call this. */
  function KeepPassword(s: string): string {
    s
  }

  /**
   * `user.save()` on the stored user at `k`, changed to `u`: validation,
   * the hash-only-when-modified hook and the unique phone index, then the
   * document replaces the stored one.
   */
  function SaveUser(db: Db, k: nat, u: User, hash: string -> string): (r: Result<(Db, User), AuthError>)
    requires k < |db.users|
    ensures r.Ok? <==> Save(u, Some(db.users[k].password), Others(db.users, k), hash).Ok?
    ensures r.Ok? ==> r.value.1 == Save(u, Some(db.users[k].password), Others(db.users, k), hash).value
                      && r.value.0 == db.(users := db.users[k := r.value.1])
    ensures r.Err? ==> r.error.SaveFailed?
    ensures r.Ok? && u.password == db.users[k].password ==> r.value.1 == u
    ensures r.Ok? && WellFormed(db) && u.id == db.users[k].id ==> WellFormed(r.value.0)
  {
    match Save(u, Some(db.users[k].password), Others(db.users, k), hash)
    case Err(e) => Err(SaveFailed(e))
    case Ok(saved) =>
      var db' := db.(users := db.users[k := saved]);
      ReplaceKeepsWellFormed(db, k, saved);
      Ok((db', saved))
  }

  lemma ReplaceKeepsWellFormed(db: Db, k: nat, u: User)
    requires k < |db.users| && ValidUser(u) && PhoneFree(Others(db.users, k), u.phone)
    ensures WellFormed(db) && u.id == db.users[k].id ==> WellFormed(db.(users := db.users[k := u]))
  {
    OthersCover(db.users, k);
  }

  /* -------------------------------------------------------- registration */

  /** The submitted location as the `location` sub-document: its county. */
  predicate CountyIs(v: Value, county: Value) {
    v.Obj? && Field(v.fields, "county") == county
  }

  /** The `location` sub-document holding the submitted county. */
  function LocationDoc(county: Value): (v: Value)
    requires county.Str? && county.s != []
    ensures CountyIs(v, county) && PathOk(Location, v)
  {
    var v := Obj(map["county" := county]);
    assert Field(v.fields, "county") == county;
    v
  }

  /** A self-registering user type is one of the schema's user types. */
  lemma UserTypeAccepted(b: RegistrationBody)
    requires UserTypeOk(b)
    ensures PathOk(UserType, Str(b.userType.value))
  {
    assert b.userType.value == "worker" || b.userType.value == "employer";
  }

  /**
   * The paths `register` always sets: the user type, the trimmed name,
   * `location.county` and the cast skills.
   */
  function BaseFields(userType: string, name: string, county: Value, skills: Value): (m: map<Path, Value>)
    requires PathOk(UserType, Str(userType)) && |Trim(name)| >= 2 && county.Str? && county.s != [] && PathOk(Skills, skills)
    ensures HasRequiredPaths(m) && Skills in m && ActiveFlag !in m && Email !in m
    ensures ValidProfile(m)
    ensures CountyIs(m[Location], county) && m[Skills] == skills
    ensures m[Name] == Str(Trim(name)) && m[UserType] == Str(userType)
  {
    RequiredProfile(Str(userType), NameField(name), LocationDoc(county), skills)
  }

  /** The user type, name, location and skills, each acceptable, form a valid profile with exactly the required paths. */
  function RequiredProfile(userType: Value, name: Value, location: Value, skills: Value): (m: map<Path, Value>)
    requires PathOk(UserType, userType) && PathOk(Name, name) && PathOk(Location, location) && PathOk(Skills, skills)
    ensures ValidProfile(m) && HasRequiredPaths(m) && Skills in m && ActiveFlag !in m && Email !in m
    ensures m[UserType] == userType && m[Name] == name && m[Location] == location && m[Skills] == skills
  {
    map[UserType := userType, Name := name, Location := location, Skills := skills]
  }

  /** The trimmed name, which the `name` path accepts as it is. */
  function NameField(name: string): (v: Value)
    requires |Trim(name)| >= 2
    ensures v == Str(Trim(name)) && PathOk(Name, v)
  {
    Str(Trim(name))
  }

  /** The base paths with the trimmed, lower-cased email added when one is given. */
  function WithEmail(base: map<Path, Value>, email: Option<string>): (f: map<Path, Value>)
    requires ValidProfile(base)
    ensures ValidProfile(f)
    ensures forall p :: p != Email ==> (p in f <==> p in base)
    ensures Email in f <==> Email in base || email.Some?
    ensures forall p :: p in base && p != Email ==> f[p] == base[p]
    ensures email.Some? ==> f[Email] == StoredEmail(email.value)
  {
    if email.Some? then
      var v := StoredEmail(email.value);
      ValidProfileAdd(base, Email, v);
      base[Email := v]
    else base
  }

  /** The trimmed, lower-cased email, which the `email` path accepts as it is. */
  function StoredEmail(e: string): (v: Value)
    ensures v == Str(ToLower(Trim(e))) && PathOk(Email, v)
  {
    LowerTrimmed(e);
    Str(ToLower(Trim(e)))
  }

  /**
   * The paths `register` sets from the body: the base paths and the email
   * when given. None when `skills` does not cast.
   */
  function RegistrationFields(b: RegistrationBody): (f: Option<map<Path, Value>>)
    requires UserTypeOk(b) && NameOk(b) && LocationOk(b)
    ensures f.Some? <==> CastPath(Skills, Or(b.skills, Arr([]))).Some?
    ensures f.Some? ==> ValidProfile(f.value) && HasRequiredPaths(f.value) && ActiveFlag !in f.value
    ensures f.Some? ==> Skills in f.value && (Email in f.value <==> b.email.Some?)
  {
    match CastPath(Skills, Or(b.skills, Arr([])))
    case None => None
    case Some(skills) =>
      UserTypeAccepted(b);
      var base := BaseFields(b.userType.value, b.name.value, b.location, skills);
      Some(WithEmail(base, b.email))
  }

  /**
   * The values `register` stores: the county, the trimmed name, the user
   * type, `[]` for missing skills and the trimmed, lower-cased email.
   */
  lemma RegistrationFieldValues(b: RegistrationBody)
    requires UserTypeOk(b) && NameOk(b) && LocationOk(b) && RegistrationFields(b).Some?
    ensures var f := RegistrationFields(b).value;
      CountyIs(f[Location], b.location)
      && f[Name] == Str(Trim(b.name.value)) && f[UserType] == Str(b.userType.value)
      && (!Truthy(b.skills) ==> f[Skills] == Arr([]))
      && (b.email.Some? ==> f[Email] == Str(ToLower(Trim(b.email.value))))
  {
    var skills := CastPath(Skills, Or(b.skills, Arr([]))).value;
    UserTypeAccepted(b);
    var base := BaseFields(b.userType.value, b.name.value, b.location, skills);
    if !Truthy(b.skills) {
      assert Or(b.skills, Arr([])) == Arr([]);
      assert skills == Arr([]);
    }
  }

  /** A truthy email in the body. */
  predicate EmailGiven(b: RegistrationBody) {
    b.email.Some? && b.email.value != []
  }

  /** The email query value after the path's trim and lowercase setters. */
  function EmailQuery(b: RegistrationBody): string
    requires b.email.Some?
  {
    ToLower(Trim(b.email.value))
  }

  /**
   * `register` storing `phone`: a phone in use is refused, then a given
   * email in use; otherwise the new user is built and saved.
   */
  function RegisterWith(db: Db, b: RegistrationBody, phone: string, id: Id, r: nat, now: int,
                        hash: string -> string): (res: Result<(Db, User), AuthError>)
    requires UserTypeOk(b) && NameOk(b) && LocationOk(b) && PasswordOk(b) && r < 900000
    ensures FindByPhone(db.users, phone) < |db.users| ==> res == Err(PhoneTaken)
    ensures (FindByPhone(db.users, phone) == |db.users| && EmailGiven(b) && EmailInUse(db.users, EmailQuery(b)))
              ==> res == Err(EmailTaken)
    ensures res.Ok? <==> FindByPhone(db.users, phone) == |db.users|
                         && !(EmailGiven(b) && EmailInUse(db.users, EmailQuery(b)))
                         && RegistrationFields(b).Some? && PhoneValidator(phone)
    ensures (FindByPhone(db.users, phone) == |db.users| && !(EmailGiven(b) && EmailInUse(db.users, EmailQuery(b))))
              ==> res == CreateUser(db, b, phone, id, r, now, hash)
  {
    if FindByPhone(db.users, phone) < |db.users| then Err(PhoneTaken)
    else if EmailGiven(b) && EmailInUse(db.users, EmailQuery(b)) then Err(EmailTaken)
    else CreateUser(db, b, phone, id, r, now, hash)
  }

  /**
   * The new user `register` creates: a fresh code that expires ten minutes
   * from now, the hashed password, no flag set, the body's paths; it is
   * appended to the collection when it saves.
   */
  function CreateUser(db: Db, b: RegistrationBody, phone: string, id: Id, r: nat, now: int,
                      hash: string -> string): (res: Result<(Db, User), AuthError>)
    requires UserTypeOk(b) && NameOk(b) && LocationOk(b) && PasswordOk(b) && r < 900000
    ensures res.Ok? <==> RegistrationFields(b).Some? && PhoneValidator(phone)
                         && PhoneFree(db.users, phone)
    ensures RegistrationFields(b).Some? && !PhoneValidator(phone) ==> res == Err(SaveFailed(PhoneInvalid))
    ensures res.Ok? ==>
      var u := res.value.1;
      res.value.0 == db.(users := db.users + [u])
      && u.id == id && u.phone == phone && u.password == hash(b.password.value)
      && u.isVerified == Verified(false, false, false) && Active(u)
      && u.verificationCode == Some(GenerateVerificationCode(r))
      && u.verificationExpires == Some(now + CodeLifetime)
      && ValidUser(u)
  {
    match NewRegistrant(b, phone, id, r, now)
    case None => Err(SaveFailed(PathInvalid))
    case Some(u) =>
      match Save(u, None, db.users, hash)
      case Err(e) => Err(SaveFailed(e))
      case Ok(saved) => Ok((db.(users := db.users + [saved]), saved))
  }

  /** The user built from the body, before it is saved; None when the body's paths do not cast. */
  function NewRegistrant(b: RegistrationBody, phone: string, id: Id, r: nat, now: int): (u: Option<User>)
    requires UserTypeOk(b) && NameOk(b) && LocationOk(b) && PasswordOk(b) && r < 900000
    ensures u.Some? <==> RegistrationFields(b).Some?
    ensures u.Some? ==>
      u.value.id == id && u.value.phone == phone && u.value.password == b.password.value
      && u.value.isVerified == Verified(false, false, false) && Active(u.value)
      && u.value.verificationCode == Some(GenerateVerificationCode(r))
      && u.value.verificationExpires == Some(now + CodeLifetime)
    ensures u.Some? ==> (ValidUser(u.value) <==> PhoneValidator(phone))
  {
    var fields := RegistrationFields(b);
    if fields.None? then None
    else
      RegistrantActive(b.password.value, fields.value, phone, id, r, now);
      Some(Registrant(b.password.value, fields.value, phone, id, r, now))
  }

  /** The new user `register` builds: schema defaults, the given paths, no flag set, a fresh code. */
  function Registrant(password: string, fields: map<Path, Value>, phone: string, id: Id, r: nat, now: int): (u: User)
    requires r < 900000
    requires ValidProfile(fields) && HasRequiredPaths(fields)
    ensures u.id == id && u.phone == phone && u.password == password
    ensures u.isVerified == Verified(false, false, false)
    ensures u.verificationCode == Some(GenerateVerificationCode(r)) && u.verificationExpires == Some(now + CodeLifetime)
    ensures forall p :: p in fields ==> p in u.profile && u.profile[p] == fields[p]
    ensures ValidUser(u) <==> PhoneValidator(phone)
  {
    NewUser(id, phone, password, fields, Some(GenerateVerificationCode(r)), Some(now + CodeLifetime), now)
  }

  /** Without an `active` path of its own, the new user takes the schema default: active. */
  lemma RegistrantActive(password: string, fields: map<Path, Value>, phone: string, id: Id, r: nat, now: int)
    requires r < 900000
    requires ValidProfile(fields) && HasRequiredPaths(fields) && ActiveFlag !in fields
    ensures Active(Registrant(password, fields, phone, id, r, now))
  {
    var d := DefaultProfile(now);
    assert ActiveFlag in d && d[ActiveFlag] == DefaultValue(ActiveFlag, now) == Bool(true);
  }

  /** The stored location and the default skills come from the body. */
  lemma CreatedProfile(db: Db, b: RegistrationBody, phone: string, id: Id, r: nat, now: int,
                       hash: string -> string)
    requires UserTypeOk(b) && NameOk(b) && LocationOk(b) && PasswordOk(b) && r < 900000
    requires CreateUser(db, b, phone, id, r, now, hash).Ok?
    ensures var u := CreateUser(db, b, phone, id, r, now, hash).value.1;
      Location in u.profile && CountyIs(u.profile[Location], b.location)
      && (!Truthy(b.skills) ==> Skills in u.profile && u.profile[Skills] == Arr([]))
  {
    var fields := RegistrationFields(b).value;
    RegistrationFieldValues(b);
    var u := Registrant(b.password.value, fields, phone, id, r, now);
    var saved := CreateUser(db, b, phone, id, r, now, hash).value.1;
    assert saved.profile == u.profile;
    assert Location in fields && Skills in fields;
  }

  /** A registration keeps the store well-formed when the new id is fresh. */
  lemma RegisterKeepsWellFormed(db: Db, b: RegistrationBody, phone: string, id: Id, r: nat, now: int,
                                hash: string -> string)
    requires UserTypeOk(b) && NameOk(b) && LocationOk(b) && PasswordOk(b) && r < 900000
    requires WellFormed(db) && FindById(db.users, id) == |db.users|
    requires RegisterWith(db, b, phone, id, r, now, hash).Ok?
    ensures WellFormed(RegisterWith(db, b, phone, id, r, now, hash).value.0)
  {
    var res := CreateUser(db, b, phone, id, r, now, hash).value;
    AppendUserKeepsWellFormed(db, res.1);
  }

  /**
   * `register` as written: the phone is stored as submitted, only trimmed,
   * although the validator accepted it on its normalised form.
   */
  function RegisterAsWritten(db: Db, b: RegistrationBody, id: Id, r: nat, now: int,
                             hash: string -> string): (res: Result<(Db, User), AuthError>)
    requires RegistrationValid(b) && r < 900000
    ensures res.Ok? ==> res.value.1.phone == Trim(b.phone.value)
    ensures res.Ok? ==> PhoneValidator(Trim(b.phone.value))
  {
    RegisterWith(db, b, Trim(b.phone.value), id, r, now, hash)
  }

  /** A Safaricom number in the 12-digit 2547 form, from its eight subscriber digits. */
  function IntlPhone(subscriber: string): string {
    "2547" + subscriber
  }

  /** The same number as users often type it, with the international `+`. */
  function PlusPhone(subscriber: string): string {
    "+" + IntlPhone(subscriber)
  }

  const SampleName: string := "Wanjiru"

  /** The sample name has nothing to trim and is long enough. */
  lemma SampleNameOk()
    ensures |Trim(SampleName)| >= 2
  {
    TrimOfUnpadded(SampleName);
  }

  /** A worker registering from Nairobi with the given phone and nothing optional. */
  function SampleBody(phone: string): (b: RegistrationBody)
    ensures UserTypeOk(b) && NameOk(b) && PasswordOk(b) && LocationOk(b)
    ensures b.phone == Some(phone) && b.email.None? && !Truthy(b.skills)
  {
    SampleNameOk();
    RegistrationBody(Some("worker"), Some(SampleName), Some(phone), None,
                     Some("secret1"), Str("Nairobi"), Undefined)
  }

  /** The 2547 number is twelve digits. */
  lemma IntlPhoneDigits(subscriber: string)
    requires AllDigits(subscriber) && |subscriber| == 8
    ensures AllDigits(IntlPhone(subscriber)) && |IntlPhone(subscriber)| == 12
  {
    var n := IntlPhone(subscriber);
    assert AllDigits("2547");
    forall i | 0 <= i < |n| ensures IsDigit(n[i]) {
      if i < 4 { assert n[i] == "2547"[i]; } else { assert n[i] == subscriber[i - 4]; }
    }
  }

  /** The `+` form normalises to the 12-digit number, which the Kenyan pattern accepts. */
  lemma PlusPhoneNormalises(subscriber: string)
    requires AllDigits(subscriber) && |subscriber| == 8
    ensures NormalizePhone(Some(PlusPhone(subscriber))) == Some(IntlPhone(subscriber))
    ensures MatchesKenyanPattern(IntlPhone(subscriber))
  {
    var n := IntlPhone(subscriber);
    IntlPhoneDigits(subscriber);
    assert PlusPhone(subscriber)[1..] == n;
    NormalizePhoneKeepsDigits(PlusPhone(subscriber));
    assert n[..4] == "2547";
    assert n[4..] == subscriber;
    assert PrefixThenEightDigits("2547", n);
  }

  /** The `+` number passes the validator but is not a string of 10 to 15 digits. */
  lemma PlusPhoneValidated(subscriber: string)
    requires AllDigits(subscriber) && |subscriber| == 8
    ensures RegistrationValid(SampleBody(PlusPhone(subscriber)))
    ensures Trim(PlusPhone(subscriber)) == PlusPhone(subscriber) && !PhoneValidator(PlusPhone(subscriber))
  {
    var p := PlusPhone(subscriber);
    PlusPhoneNormalises(subscriber);
    assert p[0] == '+' && p[|p| - 1] == subscriber[7];
    TrimOfUnpadded(p);
    assert !IsDigit(p[0]);
  }

  /**
   * Every `+2547` number passes the validator but not the schema's phone
   * validator, so its registration fails with a server error although
   * nothing is in use.
   */
  lemma PlusPhoneRegistrationFails(subscriber: string, hash: string -> string)
    requires AllDigits(subscriber) && |subscriber| == 8
    ensures RegistrationValid(SampleBody(PlusPhone(subscriber)))
    ensures RegisterAsWritten(Db([], [], []), SampleBody(PlusPhone(subscriber)), 1, 0, 0, hash)
            == Err(SaveFailed(PhoneInvalid))
  {
    PlusPhoneValidated(subscriber);
    var b := SampleBody(PlusPhone(subscriber));
    SampleFieldsCast(b);
    UnacceptedPhoneFails(Db([], [], []), b, 1, 0, 0, hash);
  }

  /** A body without skills always has castable paths. */
  lemma SampleFieldsCast(b: RegistrationBody)
    requires UserTypeOk(b) && NameOk(b) && LocationOk(b) && !Truthy(b.skills)
    ensures RegistrationFields(b).Some?
  {
    assert Or(b.skills, Arr([])) == Arr([]);
  }

  /**
   * Whenever the trimmed phone is not 10 to 15 digits, a registration that
   * passes every other check fails on save with the phone validator's error.
   */
  lemma UnacceptedPhoneFails(db: Db, b: RegistrationBody, id: Id, r: nat, now: int, hash: string -> string)
    requires RegistrationValid(b) && r < 900000 && !PhoneValidator(Trim(b.phone.value))
    requires PhoneFree(db.users, Trim(b.phone.value)) && !EmailGiven(b) && RegistrationFields(b).Some?
    ensures RegisterAsWritten(db, b, id, r, now, hash) == Err(SaveFailed(PhoneInvalid))
  {
  }

  /** Every phone the registration validator accepts, once normalised, passes the schema's phone validator. */
  lemma ValidatedPhoneFitsSchema(b: RegistrationBody)
    requires PhoneOk(b)
    ensures PhoneValidator(NormalizePhone(b.phone).value)
  {
    AcceptedPhoneShape(b);
  }

  /**
   * `register` storing the normalised phone the validator checked: a
   * validated body registers exactly when its phone and email are free and
   * its skills cast.
   */
  function Register(db: Db, b: RegistrationBody, id: Id, r: nat, now: int,
                    hash: string -> string): (res: Result<(Db, User), AuthError>)
    requires RegistrationValid(b) && r < 900000
    ensures res.Ok? <==> FindByPhone(db.users, NormalizePhone(b.phone).value) == |db.users|
                         && !(EmailGiven(b) && EmailInUse(db.users, EmailQuery(b)))
                         && CastPath(Skills, Or(b.skills, Arr([]))).Some?
    ensures res.Ok? ==> res.value.1.phone == NormalizePhone(b.phone).value
  {
    AcceptedPhoneShape(b);
    RegisterWith(db, b, NormalizePhone(b.phone).value, id, r, now, hash)
  }

  /**
   * With the normalised phone stored, every `+2547` registration succeeds
   * when the number is free, and stores the 12-digit number.
   */
  lemma PlusPhoneRegisters(db: Db, subscriber: string, hash: string -> string)
    requires AllDigits(subscriber) && |subscriber| == 8 && PhoneFree(db.users, IntlPhone(subscriber))
    ensures RegistrationValid(SampleBody(PlusPhone(subscriber)))
    ensures Register(db, SampleBody(PlusPhone(subscriber)), 1, 0, 0, hash).Ok?
    ensures Register(db, SampleBody(PlusPhone(subscriber)), 1, 0, 0, hash).value.1.phone == IntlPhone(subscriber)
  {
    var b := SampleBody(PlusPhone(subscriber));
    assert RegistrationValid(b) && NormalizePhone(b.phone) == Some(IntlPhone(subscriber)) by {
      PlusPhoneValidated(subscriber);
      PlusPhoneNormalises(subscriber);
    }
    assert RegistrationFields(b).Some? by { SampleFieldsCast(b); }
    FreeRegistration(db, b, 1, 0, 0, hash);
  }

  /** A validated body without an email, with castable paths and a free phone, registers. */
  lemma FreeRegistration(db: Db, b: RegistrationBody, id: Id, r: nat, now: int, hash: string -> string)
    requires RegistrationValid(b) && r < 900000 && !EmailGiven(b) && RegistrationFields(b).Some?
    requires PhoneFree(db.users, NormalizePhone(b.phone).value)
    ensures Register(db, b, id, r, now, hash).Ok?
    ensures Register(db, b, id, r, now, hash).value.1.phone == NormalizePhone(b.phone).value
  {
  }

  /* --------------------------------------------------------------- login */

  /**
   * `login`: an unknown phone and a wrong password both give "Invalid
   * credentials"; an inactive account is refused before the password is
   * compared; success records `lastLogin` and saves without re-hashing.
   */
  function Login(db: Db, phone: string, password: string, now: int,
                 compare: (string, string) -> bool): (r: Result<(Db, User), AuthError>)
    ensures FindByPhone(db.users, Trim(phone)) == |db.users| ==> r == Err(InvalidCredentials)
    ensures var k := FindByPhone(db.users, Trim(phone));
      k < |db.users| && !Active(db.users[k]) ==> r == Err(Deactivated)
    ensures var k := FindByPhone(db.users, Trim(phone));
      k < |db.users| && Active(db.users[k]) && !compare(password, db.users[k].password) ==> r == Err(InvalidCredentials)
    ensures r.Ok? ==>
      var k := FindByPhone(db.users, Trim(phone));
      k < |db.users| && compare(password, db.users[k].password)
      && r.value.1 == db.users[k].(profile := db.users[k].profile[LastLogin := Num(now as real)], updatedAt := now)
      && r.value.0 == db.(users := db.users[k := r.value.1])
  {
    var k := FindByPhone(db.users, Trim(phone));
    if k == |db.users| then Err(InvalidCredentials)
    else
      var u := db.users[k];
      if !Active(u) then Err(Deactivated)
      else if !compare(password, u.password) then Err(InvalidCredentials)
      else
        SaveUser(db, k, u.(profile := u.profile[LastLogin := Num(now as real)], updatedAt := now), KeepPassword)
  }

  /**
   * In a well-formed store a login with the right password on an active
   * account succeeds, and the store stays well-formed.
   */
  lemma LoginSucceeds(db: Db, phone: string, password: string, now: int, compare: (string, string) -> bool)
    requires WellFormed(db)
    requires var k := FindByPhone(db.users, Trim(phone));
      k < |db.users| && Active(db.users[k]) && compare(password, db.users[k].password)
    ensures var r := Login(db, phone, password, now, compare);
      r.Ok? && WellFormed(r.value.0) && r.value.1.profile[LastLogin] == Num(now as real)
  {
    var k := FindByPhone(db.users, Trim(phone));
    var u := db.users[k];
    assert ValidUser(u);
    ValidProfileAdd(u.profile, LastLogin, Num(now as real));
    var v := u.(profile := u.profile[LastLogin := Num(now as real)], updatedAt := now);
    StoredChangeSaves(db, k, v);
  }

  /**
   * A stored user changed without touching its phone, password or
   * required paths saves, and the store stays well-formed.
   */
  lemma StoredChangeSaves(db: Db, k: nat, v: User)
    requires WellFormed(db) && k < |db.users|
    requires v.id == db.users[k].id && v.phone == db.users[k].phone && v.password == db.users[k].password
    requires HasRequiredPaths(v.profile) && ValidProfile(v.profile)
    ensures SaveUser(db, k, v, KeepPassword).Ok? && SaveUser(db, k, v, KeepPassword).value.1 == v
    ensures WellFormed(SaveUser(db, k, v, KeepPassword).value.0)
  {
    OwnPhoneFree(db.users, k);
    assert ValidUser(db.users[k]);
  }

  /* --------------------------------------------------- phone verification */

  /** `user.verificationCode !== code`, negated: no code and none sent, or the same string. */
  predicate CodeMatches(stored: Option<string>, sent: Value) {
    match stored
    case None => sent.Undefined?
    case Some(c) => sent == Str(c)
  }

  /** `user.verificationExpires < Date.now()`; a missing expiry never compares smaller. */
  predicate Expired(expires: Option<int>, now: int) {
    expires.Some? && expires.value < now
  }

  /**
   * `verifyPhone`: checks, in order, an unknown user, a phone already
   * verified, a code mismatch and an expired code (strictly earlier than
   * now); success sets the phone flag and clears the code and its expiry.
   */
  function VerifyPhone(db: Db, userId: Id, code: Value, now: int): (r: Result<(Db, User), AuthError>)
    ensures FindById(db.users, userId) == |db.users| ==> r == Err(UserNotFound)
    ensures var k := FindById(db.users, userId);
      k < |db.users| ==>
        var u := db.users[k];
        (u.isVerified.phone ==> r == Err(AlreadyVerified))
        && (!u.isVerified.phone && !CodeMatches(u.verificationCode, code) ==> r == Err(InvalidCode))
        && ((!u.isVerified.phone && CodeMatches(u.verificationCode, code) && Expired(u.verificationExpires, now))
              ==> r == Err(CodeExpired))
        && ((!u.isVerified.phone && CodeMatches(u.verificationCode, code) && !Expired(u.verificationExpires, now)
             && ValidUser(u) && WellFormed(db)) ==> r.Ok?)
    ensures r.Ok? ==>
      var k := FindById(db.users, userId);
      var u := r.value.1;
      k < |db.users| && !db.users[k].isVerified.phone
      && u.isVerified == db.users[k].isVerified.(phone := true)
      && u.verificationCode.None? && u.verificationExpires.None?
      && u.password == db.users[k].password && u.phone == db.users[k].phone && u.profile == db.users[k].profile
      && r.value.0 == db.(users := db.users[k := u])
    ensures r.Ok? && WellFormed(db) ==> WellFormed(r.value.0)
  {
    var k := FindById(db.users, userId);
    if k == |db.users| then Err(UserNotFound)
    else
      var u := db.users[k];
      if u.isVerified.phone then Err(AlreadyVerified)
      else if !CodeMatches(u.verificationCode, code) then Err(InvalidCode)
      else if Expired(u.verificationExpires, now) then Err(CodeExpired)
      else
        var v := u.(isVerified := u.isVerified.(phone := true), verificationCode := None,
                    verificationExpires := None, updatedAt := now);
        SaveUser(db, k, v, KeepPassword)
  }

  /** The code is still good at the very millisecond it expires. */
  lemma ExpiryIsStrict(expires: int)
    ensures !Expired(Some(expires), expires) && Expired(Some(expires), expires + 1)
  {
  }

  /**
   * `resendVerification`: an unknown or already verified user is refused;
   * otherwise the code is replaced and expires ten minutes from now.
   */
  function ResendVerification(db: Db, userId: Id, r: nat, now: int): (res: Result<(Db, User), AuthError>)
    requires r < 900000
    ensures FindById(db.users, userId) == |db.users| ==> res == Err(UserNotFound)
    ensures var k := FindById(db.users, userId);
      k < |db.users| && db.users[k].isVerified.phone ==> res == Err(AlreadyVerified)
    ensures res.Ok? ==>
      var k := FindById(db.users, userId);
      var u := res.value.1;
      k < |db.users| && !db.users[k].isVerified.phone
      && u.verificationCode == Some(GenerateVerificationCode(r))
      && u.verificationExpires == Some(now + CodeLifetime)
      && u.isVerified == db.users[k].isVerified && u.password == db.users[k].password
      && u.phone == db.users[k].phone && u.profile == db.users[k].profile
      && res.value.0 == db.(users := db.users[k := u])
    ensures var k := FindById(db.users, userId);
      WellFormed(db) && k < |db.users| && !db.users[k].isVerified.phone ==> res.Ok? && WellFormed(res.value.0)
  {
    var k := FindById(db.users, userId);
    if k == |db.users| then Err(UserNotFound)
    else
      var u := db.users[k];
      if u.isVerified.phone then Err(AlreadyVerified)
      else
        var v := u.(verificationCode := Some(GenerateVerificationCode(r)),
                    verificationExpires := Some(now + CodeLifetime), updatedAt := now);
        SaveUser(db, k, v, KeepPassword)
  }

  /**
   * The verification round trip: the code a registration issues verifies
   * the phone up to and including the expiry instant, and is refused as
   * expired after it.
   */
  lemma RegisteredCodeVerifies(db: Db, b: RegistrationBody, id: Id, r: nat, t0: int, t: int,
                                hash: string -> string)
    requires RegistrationValid(b) && r < 900000 && WellFormed(db) && FindById(db.users, id) == |db.users|
    requires Register(db, b, id, r, t0, hash).Ok?
    ensures var db1 := Register(db, b, id, r, t0, hash).value.0;
      var v := VerifyPhone(db1, id, Str(GenerateVerificationCode(r)), t);
      (t <= t0 + CodeLifetime ==> v.Ok? && v.value.1.isVerified.phone)
      && (t > t0 + CodeLifetime ==> v == Err(CodeExpired))
  {
    RegisteredUser(db, b, id, r, t0, hash);
    var db1 := Register(db, b, id, r, t0, hash).value.0;
    PendingCodeVerifies(db1, |db.users|, t);
  }

  /** What a registration leaves in the store: a valid, unverified user with a fresh code, appended last. */
  lemma RegisteredUser(db: Db, b: RegistrationBody, id: Id, r: nat, t0: int, hash: string -> string)
    requires RegistrationValid(b) && r < 900000 && WellFormed(db) && FindById(db.users, id) == |db.users|
    requires Register(db, b, id, r, t0, hash).Ok?
    ensures var res := Register(db, b, id, r, t0, hash).value;
      var k := |db.users|;
      res.0.users == db.users + [res.1] && WellFormed(res.0) && FindById(res.0.users, id) == k
      && res.1.id == id && !res.1.isVerified.phone
      && res.1.verificationCode == Some(GenerateVerificationCode(r))
      && res.1.verificationExpires == Some(t0 + CodeLifetime)
  {
    AcceptedPhoneShape(b);
    var phone := NormalizePhone(b.phone).value;
    assert Register(db, b, id, r, t0, hash) == CreateUser(db, b, phone, id, r, t0, hash);
    CreatedUser(db, b, phone, id, r, t0, hash);
  }

  /** The user a successful `CreateUser` appends, for any phone. */
  lemma CreatedUser(db: Db, b: RegistrationBody, phone: string, id: Id, r: nat, t0: int, hash: string -> string)
    requires UserTypeOk(b) && NameOk(b) && LocationOk(b) && PasswordOk(b) && r < 900000
    requires WellFormed(db) && FindById(db.users, id) == |db.users|
    requires CreateUser(db, b, phone, id, r, t0, hash).Ok?
    ensures var res := CreateUser(db, b, phone, id, r, t0, hash).value;
      var k := |db.users|;
      res.0.users == db.users + [res.1] && WellFormed(res.0) && FindById(res.0.users, id) == k
      && res.1.id == id && !res.1.isVerified.phone
      && res.1.verificationCode == Some(GenerateVerificationCode(r))
      && res.1.verificationExpires == Some(t0 + CodeLifetime)
  {
    var res := CreateUser(db, b, phone, id, r, t0, hash).value;
    AppendUserKeepsWellFormed(db, res.1);
    assert res.0.users[|db.users|] == res.1;
  }

  /**
   * A stored, unverified user whose code is pending: sending that code
   * verifies the phone until the expiry instant and is refused after it.
   */
  lemma PendingCodeVerifies(db: Db, k: nat, t: int)
    requires WellFormed(db) && k < |db.users| && FindById(db.users, db.users[k].id) == k
    requires !db.users[k].isVerified.phone
    requires db.users[k].verificationCode.Some? && db.users[k].verificationExpires.Some?
    ensures var u := db.users[k];
      var v := VerifyPhone(db, u.id, Str(u.verificationCode.value), t);
      (t <= u.verificationExpires.value ==> v.Ok? && v.value.1.isVerified.phone)
      && (t > u.verificationExpires.value ==> v == Err(CodeExpired))
  {
    assert ValidUser(db.users[k]);
  }

  /* ------------------------------------------------------ password reset */

  /**
   * `resetPassword`: the user found by phone gets the new password, hashed
   * on save; the submitted code is never compared with anything. A missing
   * new password fails the required validator like a short one.
   */
  function ResetPassword(db: Db, phone: string, code: Value, newPassword: Option<string>, now: int,
                         hash: string -> string): (r: Result<(Db, User), AuthError>)
    ensures FindByPhone(db.users, Trim(phone)) == |db.users| ==> r == Err(UserNotFound)
    ensures r.Ok? ==>
      var k := FindByPhone(db.users, Trim(phone));
      k < |db.users| && newPassword.Some?
      && (newPassword.value != db.users[k].password ==> r.value.1.password == hash(newPassword.value))
      && r.value.1.phone == db.users[k].phone && r.value.1.profile == db.users[k].profile
      && r.value.1.isVerified == db.users[k].isVerified
      && r.value.0 == db.(users := db.users[k := r.value.1])
    ensures newPassword.None? ==> r.Err?
    ensures var k := FindByPhone(db.users, Trim(phone));
      k < |db.users| && newPassword.Some? && newPassword.value != db.users[k].password && |newPassword.value| < 6
      ==> r.Err?
  {
    var k := FindByPhone(db.users, Trim(phone));
    if k == |db.users| then Err(UserNotFound)
    // a missing password fails the `required` validator, as a short one fails `minlength`
    else if newPassword.None? then Err(SaveFailed(PasswordTooShort))
    else SaveUser(db, k, db.users[k].(password := newPassword.value, updatedAt := now), hash)
  }

  /** On a well-formed store, a found user with a new password of six or more characters is reset, and the store stays well-formed. */
  lemma ResetPasswordSucceeds(db: Db, phone: string, code: Value, newPassword: Option<string>, now: int,
                              hash: string -> string)
    requires WellFormed(db) && FindByPhone(db.users, Trim(phone)) < |db.users|
    requires newPassword.Some? && |newPassword.value| >= 6
    ensures var r := ResetPassword(db, phone, code, newPassword, now, hash);
      r.Ok? && WellFormed(r.value.0)
  {
    var k := FindByPhone(db.users, Trim(phone));
    var u := db.users[k].(password := newPassword.value, updatedAt := now);
    assert ValidUser(db.users[k]);
    OwnPhoneFree(db.users, k);
    assert Save(u, Some(db.users[k].password), Others(db.users, k), hash).Ok?;
  }

  /* ------------------------------------------------------ profile update */

  /** The fields `updateProfile` deletes from the request body. */
  const RestrictedFields: seq<string> := ["password", "phone", "isVerified", "verificationCode", "verificationExpires"]

  /**
   * `findByIdAndUpdate(userId, { $set: sets, updatedAt: now })`: the casts
   * and validators run on the update before the user is looked up; the
   * unique phone index is checked against the other users.
   */
  function UpdateWith(db: Db, userId: Id, sets: map<string, Value>, now: int): (r: Result<(Db, User), AuthError>)
    ensures !UpdateCastsOk(sets) ==> r == Err(UpdateRejected)
    ensures UpdateCastsOk(sets) && FindById(db.users, userId) == |db.users| ==> r == Err(UserNotFound)
    ensures r.Ok? ==>
      var k := FindById(db.users, userId);
      k < |db.users|
      && Some(r.value.1) == SetPaths(db.users[k], sets, Others(db.users, k), now)
      && r.value.0 == db.(users := db.users[k := r.value.1])
    ensures (UpdateCastsOk(sets) && FindById(db.users, userId) < |db.users|
             && SetPaths(db.users[FindById(db.users, userId)], sets, Others(db.users, FindById(db.users, userId)), now).None?)
            ==> r == Err(UpdateRejected)
  {
    if !UpdateCastsOk(sets) then Err(UpdateRejected)
    else
      var k := FindById(db.users, userId);
      if k == |db.users| then Err(UserNotFound)
      else
        match SetPaths(db.users[k], sets, Others(db.users, k), now)
        case None => Err(UpdateRejected)
        case Some(u) => Ok((db.(users := db.users[k := u]), u))
  }

  /** A successful update keeps the store well-formed: the phone stays unique and the user valid. */
  lemma UpdateKeepsWellFormed(db: Db, userId: Id, sets: map<string, Value>, now: int)
    requires WellFormed(db) && UpdateWith(db, userId, sets, now).Ok?
    ensures WellFormed(UpdateWith(db, userId, sets, now).value.0)
  {
    var k := FindById(db.users, userId);
    var u := UpdateWith(db, userId, sets, now).value.1;
    assert u == Applied(db.users[k], sets, now);
    AppliedKeepsValid(db.users[k], sets, now);
    if "phone" !in sets {
      OwnPhoneFree(db.users, k);
    }
    ReplaceKeepsWellFormed(db, k, u);
  }

  /** Under the unique phone index, no other user holds the phone of the user at `k`. */
  lemma OwnPhoneFree(users: seq<User>, k: nat)
    requires k < |users| && UniquePhones(users)
    ensures PhoneFree(Others(users, k), users[k].phone)
  {
    forall i | 0 <= i < |Others(users, k)| ensures Others(users, k)[i].phone != users[k].phone {
      var j := if i < k then i else i + 1;
      assert Others(users, k)[i] == users[j];
    }
  }

  /** The request body without the five restricted top-level keys. */
  function StripTopLevel(updates: map<string, Value>): (sets: map<string, Value>)
    ensures forall k :: k in sets <==> k in updates && k !in RestrictedFields
    ensures forall k :: k in sets ==> sets[k] == updates[k]
  {
    map k | k in updates && k !in RestrictedFields :: updates[k]
  }

  /**
   * `updateProfile` as written: only the top-level restricted keys are
   * deleted, so a dotted key such as `isVerified.phone` still reaches the
   * update.
   */
  function UpdateProfileAsWritten(db: Db, userId: Id, updates: map<string, Value>, now: int): (r: Result<(Db, User), AuthError>)
    ensures r.Ok? ==>
      var k := FindById(db.users, userId);
      k < |db.users| && r.value.1.password == db.users[k].password && r.value.1.phone == db.users[k].phone
  {
    UpdateWith(db, userId, StripTopLevel(updates), now)
  }

  /**
   * A user can verify their own phone through the profile update by
   * sending `isVerified.phone: true`, without any code.
   */
  lemma DottedKeyVerifiesPhone(db: Db, k: nat, now: int)
    requires WellFormed(db) && k < |db.users| && !db.users[k].isVerified.phone
    ensures var r := UpdateProfileAsWritten(db, db.users[k].id, map["isVerified.phone" := Bool(true)], now);
      r.Ok? && r.value.1.isVerified.phone
  {
    var sets := map["isVerified.phone" := Bool(true)];
    assert StripTopLevel(sets) == sets by {
      assert "isVerified.phone" !in RestrictedFields;
    }
    PhoneFlagCasts(db.users[k].isVerified);
    assert FindById(db.users, db.users[k].id) == k;
  }

  /** The update `isVerified.phone: true` passes every cast and sets the phone flag. */
  lemma PhoneFlagCasts(current: Verified)
    ensures var sets := map["isVerified.phone" := Bool(true)];
      UpdateCastsOk(sets) && !Lookup(sets, "phone", PhoneCast).Assigned?
      && VerifiedUpdate(current, sets).Assigned? && VerifiedUpdate(current, sets).value.phone
  {
    var sets := map["isVerified.phone" := Bool(true)];
    assert forall p: Path :: PathName(p) !in sets;
    assert |"isVerified.phone"| == 16;
    assert "password" !in sets && "phone" !in sets && "verificationCode" !in sets && "verificationExpires" !in sets;
    assert VerifiedUpdate(Verified(false, false, false), sets).Assigned?;
  }

  /** A key the update must not reach: a restricted field, or a path beneath one. */
  predicate Restricted(key: string) {
    key in RestrictedFields || exists i :: 0 <= i < |RestrictedFields| && IsPrefix(RestrictedFields[i] + ".", key)
  }

  /** The request body without the restricted fields and the paths beneath them. */
  function StripRestricted(updates: map<string, Value>): (sets: map<string, Value>)
    ensures forall k :: k in sets <==> k in updates && !Restricted(k)
    ensures forall k :: k in sets ==> sets[k] == updates[k]
  {
    map k | k in updates && !Restricted(k) :: updates[k]
  }

  /** No profile path is restricted. */
  lemma ProfilePathsUnrestricted(p: Path)
    ensures !Restricted(PathName(p))
  {
    var name := PathName(p);
    forall i | 0 <= i < |RestrictedFields| ensures !IsPrefix(RestrictedFields[i] + ".", name) {
      var f := RestrictedFields[i] + ".";
      assert f[|f| - 1] == '.';
    }
  }

  /** No dotted profile key is restricted: it starts with `l`, `e` or `n`, and no restricted field does. */
  lemma DottedKeysUnrestricted(p: Path, k: string)
    requires FieldNames(p) != {}
    ensures !Restricted(DottedKey(p, k))
  {
    var key := DottedKey(p, k);
    DottedKeyHead(p, k);
    forall i | 0 <= i < |RestrictedFields| ensures key != RestrictedFields[i] && !IsPrefix(RestrictedFields[i] + ".", key) {
      var f := RestrictedFields[i];
      assert f[0] in {'p', 'i', 'v'};
      assert |f + "."| <= |key| ==> key[..|f + "."|][0] == key[0];
    }
  }

  /**
   * Stripping keeps every profile path and every dotted profile key with
   * its value, and removes every key that names a typed field.
   */
  lemma StrippedKeysUntouched(updates: map<string, Value>)
    ensures var sets := StripRestricted(updates);
      (forall p: Path :: PathName(p) in sets <==> PathName(p) in updates)
      && SameProfileKeys(sets, updates)
      && "password" !in sets && "phone" !in sets && "isVerified" !in sets
      && "verificationCode" !in sets && "verificationExpires" !in sets
      && FlagKeys !! sets.Keys
  {
    var sets := StripRestricted(updates);
    forall p: Path ensures PathName(p) in sets <==> PathName(p) in updates {
      ProfilePathsUnrestricted(p);
    }
    forall p: Path, k | k in FieldNames(p) ensures DottedKey(p, k) in sets <==> DottedKey(p, k) in updates {
      DottedKeysUnrestricted(p, k);
    }
    forall f | f in FlagKeys ensures f !in sets {
      assert IsPrefix(RestrictedFields[2] + ".", f);
    }
  }

  /**
   * `updateProfile`, stripping every restricted path: the password, the
   * phone, the verification flags, the code and its expiry never change;
   * every submitted profile path is overwritten by its cast value, every
   * dotted profile key writes its field, and the rest of the profile is
   * kept.
   */
  function UpdateProfile(db: Db, userId: Id, updates: map<string, Value>, now: int): (r: Result<(Db, User), AuthError>)
    ensures r.Ok? ==>
      var k := FindById(db.users, userId);
      var u := r.value.1;
      k < |db.users|
      && u.password == db.users[k].password && u.phone == db.users[k].phone
      && u.isVerified == db.users[k].isVerified
      && u.verificationCode == db.users[k].verificationCode
      && u.verificationExpires == db.users[k].verificationExpires
      && u.updatedAt == now
      && r.value.0 == db.(users := db.users[k := u])
    ensures r.Ok? ==> ProfileCastsOk(updates)
    ensures r.Ok? ==> ProfileUpdated(db.users[FindById(db.users, userId)].profile, r.value.1.profile, updates)
    ensures FindById(db.users, userId) < |db.users| && ProfileCastsOk(updates) ==> r.Ok?
    ensures !ProfileCastsOk(updates) ==> r == Err(UpdateRejected)
  {
    var sets := StripRestricted(updates);
    StrippedKeysUntouched(updates);
    var r := UpdateWith(db, userId, sets, now);
    ProfileCastsSameKeys(sets, updates);
    assert r.Ok? ==> ProfileUpdated(db.users[FindById(db.users, userId)].profile, r.value.1.profile, updates) by {
      if r.Ok? {
        ProfileUpdateSameKeys(db.users[FindById(db.users, userId)].profile, r.value.1.profile, sets, updates);
      }
    }
    r
  }

  /** The corrected update keeps the store well-formed. */
  lemma UpdateProfileKeepsWellFormed(db: Db, userId: Id, updates: map<string, Value>, now: int)
    requires WellFormed(db) && UpdateProfile(db, userId, updates, now).Ok?
    ensures WellFormed(UpdateProfile(db, userId, updates, now).value.0)
  {
    StrippedKeysUntouched(updates);
    UpdateKeepsWellFormed(db, userId, StripRestricted(updates), now);
  }
}
