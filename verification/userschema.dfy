/**
 * The User model (backend/models/user.js). The security-relevant paths
 * (phone, password, verification state) are typed fields; every other
 * schema path lives in `profile`, keyed by its top-level path name, and is
 * checked by the per-path cast and validators of the schema.
 */
module UserSchema {
  import opened Wrappers
  import opened Js
  import opened Text
  import opened Documents

  /** The `isVerified` sub-document. */
  datatype Verified = Verified(phone: bool, id: bool, email: bool)

  datatype User = User(
    id: Id,
    phone: string,
    password: string,
    isVerified: Verified,
    verificationCode: Option<string>,
    verificationExpires: Option<int>,
    profile: map<Path, Value>,
    updatedAt: int)

  /* -------------------------------------------------------------- paths */

  /** The schema's top-level paths other than the typed ones and `updatedAt`. */
  datatype Path =
    | UserType | Name | Email | Location | Skills | Experience | Availability
    | AvailabilityType | CompanyName | CompanySize | Industry | Rating | TotalReviews
    | ProfileImage | Bio | Portfolio | LastLogin | ActiveFlag | Notifications | CreatedAt

  function PathName(p: Path): (name: string)
    ensures '.' !in name
  {
    match p
    case UserType => "userType"
    case Name => "name"
    case Email => "email"
    case Location => "location"
    case Skills => "skills"
    case Experience => "experience"
    case Availability => "availability"
    case AvailabilityType => "availabilityType"
    case CompanyName => "companyName"
    case CompanySize => "companySize"
    case Industry => "industry"
    case Rating => "rating"
    case TotalReviews => "totalReviews"
    case ProfileImage => "profileImage"
    case Bio => "bio"
    case Portfolio => "portfolio"
    case LastLogin => "lastLogin"
    case ActiveFlag => "active"
    case Notifications => "notifications"
    case CreatedAt => "createdAt"
  }

  const AllPaths: set<Path> :=
    {UserType, Name, Email, Location, Skills, Experience, Availability, AvailabilityType,
     CompanyName, CompanySize, Industry, Rating, TotalReviews, ProfileImage, Bio, Portfolio,
     LastLogin, ActiveFlag, Notifications, CreatedAt}

  /**
   * The schema lookup of a request key: a key names a profile path exactly
   * when it is that path's name.
   */
  function ParsePath(s: string): (r: Option<Path>)
    ensures r.Some? ==> PathName(r.value) == s
    ensures r.None? ==> forall p: Path :: PathName(p) != s
  {
    if s == "userType" then Some(UserType)
    else if s == "name" then Some(Name)
    else if s == "email" then Some(Email)
    else if s == "location" then Some(Location)
    else if s == "skills" then Some(Skills)
    else if s == "experience" then Some(Experience)
    else if s == "availability" then Some(Availability)
    else if s == "availabilityType" then Some(AvailabilityType)
    else if s == "companyName" then Some(CompanyName)
    else if s == "companySize" then Some(CompanySize)
    else if s == "industry" then Some(Industry)
    else if s == "rating" then Some(Rating)
    else if s == "totalReviews" then Some(TotalReviews)
    else if s == "profileImage" then Some(ProfileImage)
    else if s == "bio" then Some(Bio)
    else if s == "portfolio" then Some(Portfolio)
    else if s == "lastLogin" then Some(LastLogin)
    else if s == "active" then Some(ActiveFlag)
    else if s == "notifications" then Some(Notifications)
    else if s == "createdAt" then Some(CreatedAt)
    else None
  }

  /** Every path is listed in `AllPaths`. */
  lemma AllPathsComplete(p: Path)
    ensures p in AllPaths
  {
  }

  /** The schema's required paths: the user type, the name and `location.county`. */
  predicate HasRequiredPaths(profile: map<Path, Value>) {
    UserType in profile && Name in profile && Location in profile
  }

  /** The paths a `required` validator guards: null is refused there. */
  predicate Required(p: Path) {
    p == UserType || p == Name || p == Location
  }

  /** The plain String paths, with neither a setter nor an enum. */
  predicate StringPath(p: Path) {
    p == CompanyName || p == CompanySize || p == Industry || p == ProfileImage || p == Bio
  }

  const UserTypes: set<string> := {"worker", "employer", "admin"}
  const Availabilities: set<string> := {"available", "busy", "unavailable"}
  const AvailabilityTypes: set<string> := {"full-time", "part-time", "casual"}

  predicate AllStrings(items: seq<Value>) {
    forall i :: 0 <= i < |items| ==> items[i].Str?
  }

  /** An array of strings none of which has white space to trim. */
  predicate TrimmedStrings(items: seq<Value>) {
    forall i :: 0 <= i < |items| ==> items[i].Str? && Trimmed(items[i].s)
  }

  /** The phone validator: 10 to 15 ASCII digits. */
  predicate PhoneValidator(p: string) {
    AllDigits(p) && 10 <= |p| <= 15
  }

  /* ---------------------------------------------------------- sub-paths */

  /** The paths one level beneath `location`, `experience` and `notifications`. */
  datatype SubPath = County | SubCounty | Ward | Years | Description | SmsFlag | WhatsAppFlag | EmailFlag

  /** The object path a sub-path lies beneath. */
  function Parent(s: SubPath): Path {
    match s
    case County => Location
    case SubCounty => Location
    case Ward => Location
    case Years => Experience
    case Description => Experience
    case _ => Notifications
  }

  /** The field a sub-path names inside its parent object. */
  function FieldName(s: SubPath): string {
    match s
    case County => "county"
    case SubCounty => "subCounty"
    case Ward => "ward"
    case Years => "years"
    case Description => "description"
    case SmsFlag => "sms"
    case WhatsAppFlag => "whatsapp"
    case EmailFlag => "email"
  }

  /** The field names the schema declares beneath a path; none beneath a path that is not an object. */
  function FieldNames(p: Path): (names: set<string>)
    ensures names != {} <==> p == Location || p == Experience || p == Notifications
  {
    match p
    case Location => {"county", "subCounty", "ward"}
    case Experience => {"years", "description"}
    case Notifications => {"sms", "whatsapp", "email"}
    case _ => {}
  }

  /** The sub-path a declared field name stands for: field names and sub-paths correspond one to one. */
  function FieldOf(p: Path, k: string): (s: SubPath)
    requires k in FieldNames(p)
    ensures Parent(s) == p && FieldName(s) == k
  {
    match p
    case Location => if k == "county" then County else if k == "subCounty" then SubCounty else Ward
    case Experience => if k == "years" then Years else Description
    case _ => if k == "sms" then SmsFlag else if k == "whatsapp" then WhatsAppFlag else EmailFlag
  }

  /** Every sub-path is declared beneath its parent, under its own field name. */
  lemma FieldOfFieldName(s: SubPath)
    ensures FieldName(s) in FieldNames(Parent(s)) && FieldOf(Parent(s), FieldName(s)) == s
  {
  }

  /** The dotted update key of field `k` beneath `p`, such as `location.county`; it never names a top-level path. */
  function DottedKey(p: Path, k: string): (key: string)
    ensures forall q :: key != PathName(q)
    ensures |PathName(p)| < |key| && key[..|PathName(p)|] == PathName(p) && key[|PathName(p)|] == '.'
  {
    var key := PathName(p) + "." + k;
    assert key[|PathName(p)|] == '.';
    key
  }

  /* --------------------------------------------------------------- casts */

  /**
   * The constraints on the value at a sub-path: a non-empty county (it is
   * required), non-negative years (`min: 0`), strings and flags; null
   * stands for an unset optional field.
   */
  predicate FieldOk(s: SubPath, v: Value) {
    match s
    case County => v.Str? && v.s != []
    case Years => v.Null? || (v.Num? && v.n >= 0.0)
    case SubCounty => v.Null? || v.Str?
    case Ward => v.Null? || v.Str?
    case Description => v.Null? || v.Str?
    case _ => v.Null? || v.Bool?
  }

  /** The declared fields of an object path, each acceptable, with the county present beneath `location`. */
  predicate FieldsOk(p: Path, fields: map<string, Value>) {
    && (forall k :: k in fields ==> k in FieldNames(p) && FieldOk(FieldOf(p, k), fields[k]))
    && (p == Location ==> "county" in fields)
  }

  /**
   * The schema's constraints on the value stored at one path: the enums,
   * the trimmed name and skills, the lower-cased email, the rating in
   * [0, 5], the declared fields of the object paths, and the element
   * types of the arrays. Null unsets an optional path that is not an
   * object.
   */
  predicate PathOk(p: Path, v: Value) {
    match p
    case UserType => v.Str? && v.s in UserTypes
    case Name => v.Str? && v.s != [] && Trimmed(v.s)
    case Email => v.Null? || (v.Str? && Trimmed(v.s) && LowerCase(v.s))
    case Location => v.Obj? && FieldsOk(p, v.fields)
    case Experience => v.Obj? && FieldsOk(p, v.fields)
    case Notifications => v.Obj? && FieldsOk(p, v.fields)
    case Skills => v.Null? || (v.Arr? && TrimmedStrings(v.items))
    case Portfolio => v.Null? || (v.Arr? && AllStrings(v.items))
    case Availability => v.Null? || (v.Str? && v.s in Availabilities)
    case AvailabilityType => v.Null? || (v.Str? && v.s in AvailabilityTypes)
    case Rating => v.Null? || (v.Num? && 0.0 <= v.n <= 5.0)
    case TotalReviews => v.Null? || v.Num?
    case LastLogin => v.Null? || v.Num?
    case CreatedAt => v.Null? || v.Num?
    case ActiveFlag => v.Null? || v.Bool?
    case _ => v.Null? || v.Str?
  }

  /** An optional String path: null unsets it, anything else goes through the String cast. */
  function OptionalString(v: Value): (r: Option<Value>)
    ensures r.Some? ==> r.value.Null? || r.value.Str?
    ensures v.Null? || v.Str? ==> r == Some(v)
    ensures !v.Null? ==> (r.Some? <==> CastString(v).Some?) && (r.Some? ==> r.value == Str(CastString(v).value))
  {
    if v.Null? then Some(Null)
    else match CastString(v)
      case Some(t) => Some(Str(t))
      case None => None
  }

  /** An optional Boolean path: null and a missing value unset it; a cast failure is refused. */
  function OptionalBoolean(v: Value): (r: Option<Value>)
    ensures r.Some? ==> r.value.Null? || r.value.Bool?
    ensures v.Null? || v.Bool? ==> r == Some(v)
    ensures r.Some? <==> CastBoolean(v) != NotBoolean
    ensures CastBoolean(v).Boolean? ==> r == Some(Bool(CastBoolean(v).b))
  {
    match CastBoolean(v)
    case Boolean(b) => Some(Bool(b))
    case NoBoolean => Some(Null)
    case NotBoolean => None
  }

  /** The `min`/`max` validators of a Number path. */
  datatype Bounds = Unbounded | AtLeastZero | ZeroToFive

  predicate InBounds(b: Bounds, n: real) {
    match b
    case Unbounded => true
    case AtLeastZero => n >= 0.0
    case ZeroToFive => 0.0 <= n <= 5.0
  }

  /** An optional Number path with its `min`/`max` validators; null and "" unset it. */
  function OptionalNumber(v: Value, bounds: Bounds): (r: Option<Value>)
    ensures r.Some? ==> r.value.Null? || (r.value.Num? && InBounds(bounds, r.value.n))
    ensures v.Null? || (v.Num? && InBounds(bounds, v.n)) ==> r == Some(v)
    ensures v.Str? && v.s != [] ==> (r.Some? <==> StringToNumber(v.s).Num? && InBounds(bounds, StringToNumber(v.s).n))
    ensures v.Str? && v.s != [] && r.Some? ==> r.value == StringToNumber(v.s)
  {
    match CastNumber(v)
    case Missing => Some(Null)
    case Number(n) => if InBounds(bounds, n) then Some(Num(n)) else None
    case CastFailed => None
  }

  /** An enum path: a cast string among the allowed ones; null unsets it unless the path is required. */
  function EnumCast(v: Value, allowed: set<string>, required: bool): (r: Option<Value>)
    ensures r.Some? ==> (r.value.Null? && !required) || (r.value.Str? && r.value.s in allowed)
    ensures v.Str? ==> (r.Some? <==> v.s in allowed) && (r.Some? ==> r == Some(v))
    ensures v.Null? ==> (r.Some? <==> !required) && (r.Some? ==> r == Some(v))
  {
    if v.Null? then (if required then None else Some(Null))
    else match CastString(v)
      case Some(t) => if t in allowed then Some(Str(t)) else None
      case None => None
  }

  /**
   * Assigning `v` to a sub-path: the String, Number and Boolean casts,
   * then the `required` county and the `min: 0` years; None is a cast or
   * validation error.
   */
  function CastField(s: SubPath, v: Value): (r: Option<Value>)
    ensures r.Some? ==> FieldOk(s, r.value)
    ensures FieldOk(s, v) ==> r == Some(v)
    ensures v.Null? ==> (r.Some? <==> s != County)
    ensures s == Years && v.Str? && v.s != [] ==>
      (r.Some? <==> StringToNumber(v.s).Num? && StringToNumber(v.s).n >= 0.0) && (r.Some? ==> r.value == StringToNumber(v.s))
    ensures (s == SmsFlag || s == WhatsAppFlag || s == EmailFlag) && CastBoolean(v).Boolean? ==> r == Some(Bool(CastBoolean(v).b))
    ensures (s == SubCounty || s == Ward || s == Description) && CastString(v).Some? ==> r == Some(Str(CastString(v).value))
  {
    match s
    case County =>
      (match CastString(v)
       case Some(t) => if t != [] then Some(Str(t)) else None
       case None => None)
    case Years => OptionalNumber(v, AtLeastZero)
    case SubCounty => OptionalString(v)
    case Ward => OptionalString(v)
    case Description => OptionalString(v)
    case _ => OptionalBoolean(v)
  }

  /** Every declared field an object carries casts. */
  predicate FieldsCast(p: Path, fields: map<string, Value>) {
    forall k :: k in fields && k in FieldNames(p) && !fields[k].Undefined? ==> CastField(FieldOf(p, k), fields[k]).Some?
  }

  /**
   * Assigning an object to an object path: each declared field is cast,
   * undeclared fields are dropped (the schema is strict), and `location`
   * must carry its county; None is a cast or validation error.
   */
  function CastObject(p: Path, v: Value): (r: Option<Value>)
    requires FieldNames(p) != {}
    ensures r.Some? ==> r.value.Obj? && FieldsOk(p, r.value.fields)
    ensures r.Some? <==> v.Obj? && FieldsCast(p, v.fields) && (p == Location ==> "county" in v.fields && !v.fields["county"].Undefined?)
    ensures r.Some? ==> forall k :: k in r.value.fields <==> k in FieldNames(p) && k in v.fields && !v.fields[k].Undefined?
    ensures r.Some? ==> forall k :: k in r.value.fields ==> r.value.fields[k] == CastField(FieldOf(p, k), v.fields[k]).value
    ensures v.Obj? && FieldsOk(p, v.fields) ==> r == Some(v)
  {
    if !v.Obj? || !FieldsCast(p, v.fields) then None
    else
      var m := CastFields(p, v.fields);
      if p == Location && "county" !in m then None else Some(Obj(m))
  }

  /** The declared, defined fields of an object, each through its cast; the others are dropped. */
  function CastFields(p: Path, fields: map<string, Value>): (m: map<string, Value>)
    requires FieldsCast(p, fields)
    ensures forall k :: k in m <==> k in FieldNames(p) && k in fields && !fields[k].Undefined?
    ensures forall k :: k in m ==> m[k] == CastField(FieldOf(p, k), fields[k]).value && FieldOk(FieldOf(p, k), m[k])
    ensures FieldsOk(p, fields) ==> m == fields
  {
    var m := map k | k in fields && k in FieldNames(p) && !fields[k].Undefined? :: CastField(FieldOf(p, k), fields[k]).value;
    assert FieldsOk(p, fields) ==> m == fields by {
      if FieldsOk(p, fields) {
        forall k | k in fields ensures k in m && m[k] == fields[k] {
          assert !fields[k].Undefined?;
        }
      }
    }
    m
  }

  /** `s` as it is stored in a `[String]` path: trimmed when the path trims. */
  function Element(s: string, trim: bool): string {
    if trim then Trim(s) else s
  }

  /**
   * Assigning to an array-of-strings path: each element through the
   * String cast (and the trim setter for `skills`); a single value becomes
   * a one-element array; null unsets the path.
   */
  function CastArray(v: Value, trim: bool): (r: Option<Value>)
    ensures r.Some? ==> r.value.Null? || (r.value.Arr? && AllStrings(r.value.items) && (trim ==> TrimmedStrings(r.value.items)))
    ensures v.Arr? ==> (r.Some? <==> forall i :: 0 <= i < |v.items| ==> CastString(v.items[i]).Some?)
    ensures v.Arr? && r.Some? ==> (r.value.Arr? && |r.value.items| == |v.items|
      && forall i :: 0 <= i < |v.items| ==> r.value.items[i] == Str(Element(CastString(v.items[i]).value, trim)))
    ensures !v.Arr? && !v.Null? ==> (r.Some? <==> CastString(v).Some?) && (r.Some? ==> r.value == Arr([Str(Element(CastString(v).value, trim))]))
    ensures v.Null? || (v.Arr? && AllStrings(v.items) && (trim ==> TrimmedStrings(v.items))) ==> r == Some(v)
  {
    if v.Null? then Some(Null)
    else if v.Arr? then
      match CastItems(v.items, trim)
      case Some(items) => Some(Arr(items))
      case None => None
    else match CastString(v)
      case Some(t) =>
        SingleString(Str(Element(t, trim)));
        Some(Arr([Str(Element(t, trim))]))
      case None => None
  }

  /** A one-element array of a string is an array of strings, trimmed when the string is. */
  lemma SingleString(x: Value)
    requires x.Str?
    ensures AllStrings([x]) && (Trimmed(x.s) ==> TrimmedStrings([x]))
  {
    assert forall i :: 0 <= i < |[x]| ==> [x][i] == x;
  }

  /** The elements of an array path, each through the String cast and the trim. */
  function CastItems(items: seq<Value>, trim: bool): (r: Option<seq<Value>>)
    ensures r.Some? <==> forall i :: 0 <= i < |items| ==> CastString(items[i]).Some?
    ensures r.Some? ==> |r.value| == |items| && forall i :: 0 <= i < |items| ==> r.value[i] == Str(Element(CastString(items[i]).value, trim))
    ensures r.Some? ==> AllStrings(r.value) && (trim ==> TrimmedStrings(r.value))
    ensures AllStrings(items) && (trim ==> TrimmedStrings(items)) ==> r == Some(items)
  {
    if forall i :: 0 <= i < |items| ==> CastString(items[i]).Some? then
      var cast := seq(|items|, i requires 0 <= i < |items| => Str(Element(CastString(items[i]).value, trim)));
      TrimmedElements(items, cast, trim);
      Some(cast)
    else None
  }

  lemma TrimmedElements(items: seq<Value>, cast: seq<Value>, trim: bool)
    requires forall i :: 0 <= i < |items| ==> CastString(items[i]).Some?
    requires |cast| == |items| && forall i :: 0 <= i < |items| ==> cast[i] == Str(Element(CastString(items[i]).value, trim))
    ensures AllStrings(cast) && (trim ==> TrimmedStrings(cast))
    ensures AllStrings(items) && (trim ==> TrimmedStrings(items)) ==> cast == items
  {
    forall i | 0 <= i < |items| && items[i].Str? ensures Trimmed(items[i].s) ==> Trim(items[i].s) == items[i].s {
      TrimmedIsOwnTrim(items[i].s);
    }
  }

  /** The `name` path: the String cast with the trim setter, then `required`, which refuses the empty string. */
  function NameValue(v: Value): (r: Option<Value>)
    ensures r.Some? <==> CastString(v).Some? && Trim(CastString(v).value) != []
    ensures r.Some? ==> r.value == Str(Trim(CastString(v).value)) && PathOk(Name, r.value)
    ensures PathOk(Name, v) ==> r == Some(v)
  {
    match CastString(v)
    case Some(t) => TrimmedIsOwnTrim(t); if Trim(t) != [] then Some(Str(Trim(t))) else None
    case None => None
  }

  /** The `email` path: null unsets it; otherwise the String cast with the trim and lowercase setters. */
  function EmailValue(v: Value): (r: Option<Value>)
    ensures v.Null? ==> r == Some(Null)
    ensures !v.Null? ==> (r.Some? <==> CastString(v).Some?)
    ensures !v.Null? && r.Some? ==> r.value == Str(ToLower(Trim(CastString(v).value)))
    ensures r.Some? ==> PathOk(Email, r.value)
    ensures PathOk(Email, v) ==> r == Some(v)
  {
    if v.Null? then Some(Null)
    else match CastString(v)
      case Some(t) =>
        LowerTrimmed(t);
        TrimmedIsOwnTrim(t);
        LowerCaseIsOwnLower(t);
        Some(Str(ToLower(Trim(t))))
      case None => None
  }

  /**
   * Assigning `v` to the path `p`: the String, Number, Boolean and array
   * casts, the trim (and, for `email`, lowercase) setters, the object
   * casts of the nested paths, then the path's validators. Null unsets an
   * optional path. None is a cast or validation error.
   */
  function CastPath(p: Path, v: Value): (r: Option<Value>)
    ensures r.Some? ==> PathOk(p, r.value)
    ensures PathOk(p, v) ==> r == Some(v)
    ensures v.Null? ==> (r.Some? <==> !Required(p) && FieldNames(p) == {})
  {
    match p
    case UserType => EnumCast(v, UserTypes, true)
    case Name => NameValue(v)
    case Email => EmailValue(v)
    case Location => CastObject(p, v)
    case Experience => CastObject(p, v)
    case Notifications => CastObject(p, v)
    case Skills => CastArray(v, true)
    case Portfolio => CastArray(v, false)
    case Availability => EnumCast(v, Availabilities, false)
    case AvailabilityType => EnumCast(v, AvailabilityTypes, false)
    case Rating => OptionalNumber(v, ZeroToFive)
    case TotalReviews => OptionalNumber(v, Unbounded)
    case LastLogin => if v.Null? || v.Num? then Some(v) else None
    case CreatedAt => if v.Null? || v.Num? then Some(v) else None
    case ActiveFlag => OptionalBoolean(v)
    case _ => OptionalString(v)
  }

  /** Casting is idempotent: a cast value casts to itself. */
  lemma CastPathIdempotent(p: Path, v: Value)
    requires CastPath(p, v).Some?
    ensures CastPath(p, CastPath(p, v).value) == CastPath(p, v)
  {
  }

  /** The String paths take the String cast of any value it accepts: booleans are spelled out and whole numbers written in decimal. */
  lemma StringPathsCast(p: Path, v: Value)
    requires StringPath(p) && CastString(v).Some?
    ensures CastPath(p, v) == Some(Str(CastString(v).value))
  {
  }

  /** `name` takes the String cast, trimmed, and is refused when nothing is left. */
  lemma NameCast(v: Value)
    ensures CastPath(Name, v).Some? <==> CastString(v).Some? && Trim(CastString(v).value) != []
    ensures CastPath(Name, v).Some? ==> CastPath(Name, v).value == Str(Trim(CastString(v).value))
  {
    assert CastPath(Name, v) == NameValue(v);
  }

  /** `email` takes the String cast, trimmed and lower-cased; null unsets it. */
  lemma EmailCast(v: Value)
    requires !v.Null?
    ensures CastPath(Email, v).Some? <==> CastString(v).Some?
    ensures CastPath(Email, v).Some? ==> CastPath(Email, v).value == Str(ToLower(Trim(CastString(v).value)))
  {
    assert CastPath(Email, v) == EmailValue(v);
  }

  /** The `rating` path reads a numeric string as `Number(...)` does and keeps it only within 0 to 5: `"4"` is a rating of 4. */
  lemma RatingCast(v: Value)
    requires v.Str? && v.s != []
    ensures CastPath(Rating, v).Some? <==> StringToNumber(v.s).Num? && 0.0 <= StringToNumber(v.s).n <= 5.0
    ensures CastPath(Rating, v).Some? ==> CastPath(Rating, v).value == StringToNumber(v.s)
  {
    assert CastPath(Rating, v) == OptionalNumber(v, ZeroToFive);
  }

  /** The `totalReviews` path reads any numeric string. */
  lemma TotalReviewsCast(v: Value)
    requires v.Str? && v.s != []
    ensures CastPath(TotalReviews, v).Some? <==> StringToNumber(v.s).Num?
    ensures CastPath(TotalReviews, v).Some? ==> CastPath(TotalReviews, v).value == StringToNumber(v.s)
  {
    assert CastPath(TotalReviews, v) == OptionalNumber(v, Unbounded);
  }

  /** The `active` flag takes the Boolean cast: `"false"` deactivates and `"maybe"` is refused. */
  lemma ActiveFlagCast(v: Value)
    ensures CastBoolean(v).Boolean? ==> CastPath(ActiveFlag, v) == Some(Bool(CastBoolean(v).b))
    ensures CastPath(ActiveFlag, v).Some? <==> CastBoolean(v) != NotBoolean
  {
    assert CastPath(ActiveFlag, v) == OptionalBoolean(v);
  }

  /**
   * The object paths cast field by field: undeclared fields are dropped
   * and each declared field takes its own cast, so `{"years": "5"}` is
   * five years of experience.
   */
  lemma ObjectPathsCast(p: Path, v: Value)
    requires FieldNames(p) != {} && CastPath(p, v).Some?
    ensures CastPath(p, v) == CastObject(p, v)
    ensures forall k :: k in CastPath(p, v).value.fields <==> k in FieldNames(p) && k in v.fields && !v.fields[k].Undefined?
    ensures forall k :: k in CastPath(p, v).value.fields ==>
      CastPath(p, v).value.fields[k] == CastField(FieldOf(p, k), v.fields[k]).value
  {
  }

  /** A profile whose every path is a schema path holding an acceptable value. */
  predicate ValidProfile(profile: map<Path, Value>) {
    forall p :: p in profile ==> PathOk(p, profile[p])
  }

  /** Adding one acceptable path keeps a profile valid. */
  lemma ValidProfileAdd(m: map<Path, Value>, p: Path, v: Value)
    requires ValidProfile(m) && PathOk(p, v)
    ensures ValidProfile(m[p := v])
  {
  }

  /**
   * The document-level validators a stored user meets: a valid phone, the
   * required paths present and every path acceptable.
   */
  predicate ValidUser(u: User) {
    PhoneValidator(u.phone) && HasRequiredPaths(u.profile) && ValidProfile(u.profile)
  }

  /** No user of `users` holds `phone`: the unique index admits it. */
  predicate PhoneFree(users: seq<User>, phone: string) {
    forall i :: 0 <= i < |users| ==> users[i].phone != phone
  }

  /* ----------------------------------------------------------- defaults */

  /** The paths the schema gives a default. */
  predicate HasDefault(p: Path) {
    p.Skills? || p.Portfolio? || p.Experience? || p.Availability? || p.AvailabilityType?
    || p.Rating? || p.TotalReviews? || p.ActiveFlag? || p.Notifications? || p.CreatedAt?
  }

  /**
   * The schema default of one path: experience 0 years, available, casual,
   * rating 0, no reviews, active, SMS and WhatsApp notifications on,
   * created now; Undefined for a path without a default.
   */
  function DefaultValue(p: Path, now: int): (v: Value)
    ensures HasDefault(p) ==> PathOk(p, v)
    ensures !HasDefault(p) <==> v.Undefined?
  {
    match p
    case Skills => Arr([])
    case Portfolio => Arr([])
    case Experience => Obj(map["years" := Num(0.0)])
    case Availability => Str("available")
    case AvailabilityType => Str("casual")
    case Rating => Num(0.0)
    case TotalReviews => Num(0.0)
    case ActiveFlag => Bool(true)
    case Notifications => Obj(map["sms" := Bool(true), "whatsapp" := Bool(true), "email" := Bool(false)])
    case CreatedAt => Num(now as real)
    case _ => Undefined
  }

  /** The defaults of a new user, every one acceptable for its path. */
  function DefaultProfile(now: int): (p: map<Path, Value>)
    ensures ValidProfile(p)
    ensures forall k :: k in p <==> HasDefault(k)
    ensures forall k :: k in p ==> p[k] == DefaultValue(k, now)
  {
    assert forall k: Path :: k in AllPaths by {
      forall k: Path ensures k in AllPaths { AllPathsComplete(k); }
    }
    map k | k in AllPaths && HasDefault(k) :: DefaultValue(k, now)
  }

  /**
   * A new user from the given paths; unset paths take their defaults and
   * every `isVerified` flag starts false.
   */
  function NewUser(id: Id, phone: string, password: string, fields: map<Path, Value>,
                   code: Option<string>, expires: Option<int>, now: int): (u: User)
    ensures u.isVerified == Verified(false, false, false)
    ensures forall k :: k in fields ==> k in u.profile && u.profile[k] == fields[k]
    ensures forall k :: k in DefaultProfile(now) && k !in fields ==> k in u.profile && u.profile[k] == DefaultProfile(now)[k]
    ensures u.profile.Keys == fields.Keys + DefaultProfile(now).Keys
    ensures ValidProfile(fields) ==> ValidProfile(u.profile)
  {
    User(id, phone, password, Verified(false, false, false), code, expires, DefaultProfile(now) + fields, now)
  }

  /** `user.active`: an account whose `active` path is missing or false is inactive. */
  predicate Active(u: User) {
    ActiveFlag in u.profile && Truthy(u.profile[ActiveFlag])
  }

  /* --------------------------------------------------------------- hooks */

  /**
   * `pre('save')`: the password is hashed when it was modified, that is
   * when the document is new (`previous` is None) or its password differs
   * from the stored one; otherwise the document is saved as it is.
   */
  function PreSave(u: User, previous: Option<string>, hash: string -> string): (r: User)
    ensures previous.None? || previous.value != u.password ==> r == u.(password := hash(u.password))
    ensures previous == Some(u.password) ==> r == u
  {
    if previous.None? || previous.value != u.password then u.(password := hash(u.password)) else u
  }

  /** Saving twice without touching the password hashes once: the stored hash is not hashed again. */
  lemma HashOnlyWhenModified(u: User, hash: string -> string)
    ensures var first := PreSave(u, None, hash);
      PreSave(first, Some(first.password), hash) == first
      && first.password == hash(u.password)
  {
  }

  /** Why a save fails. */
  datatype SaveError = PhoneInvalid | PasswordTooShort | PathInvalid | DuplicatePhone

  /**
   * `save()`: validation (on the plain password when it was modified) runs
   * before the hook; the unique phone index is checked against the other
   * stored users.
   */
  function Save(u: User, previous: Option<string>, others: seq<User>, hash: string -> string): (r: Result<User, SaveError>)
    ensures r.Ok? ==> ValidUser(r.value) && r.value.phone == u.phone && r.value.profile == u.profile
    ensures r.Ok? ==> r.value == PreSave(u, previous, hash)
    ensures r.Ok? <==> ValidUser(u) && (previous == Some(u.password) || |u.password| >= 6)
                       && PhoneFree(others, u.phone)
  {
    if !PhoneValidator(u.phone) then Err(PhoneInvalid)
    else if !(HasRequiredPaths(u.profile) && ValidProfile(u.profile)) then Err(PathInvalid)
    else if previous != Some(u.password) && |u.password| < 6 then Err(PasswordTooShort)
    else if exists i :: 0 <= i < |others| && others[i].phone == u.phone then Err(DuplicatePhone)
    else Ok(PreSave(u, previous, hash))
  }

  /* ------------------------------------------------------------- updates */

  /** What an update does to one typed field: leave it, assign a cast value, or fail the cast. */
  datatype Assign<T> = Unchanged | Assigned(value: T) | Refused

  /** The value a field holds after the update. */
  function Pick<T>(a: Assign<T>, current: T): T {
    if a.Assigned? then a.value else current
  }

  /** The cast of `sets[key]` when the update names `key`. */
  function Lookup<T>(sets: map<string, Value>, key: string, cast: Value -> Option<T>): (a: Assign<T>)
    ensures a.Unchanged? <==> key !in sets
    ensures a.Assigned? ==> cast(sets[key]) == Some(a.value)
    ensures a.Refused? <==> key in sets && cast(sets[key]).None?
  {
    if key !in sets then Unchanged
    else match cast(sets[key])
      case None => Refused
      case Some(x) => Assigned(x)
  }

  /** The password path with its `minlength` update validator; an update stores it as given, unhashed. */
  function PasswordCast(v: Value): (r: Option<string>)
    ensures r.Some? <==> v.Str? && |v.s| >= 6
  {
    if v.Str? && |v.s| >= 6 then Some(v.s) else None
  }

  /** The phone path: trimmed, then the phone validator. */
  function PhoneCast(v: Value): (r: Option<string>)
    ensures r.Some? ==> PhoneValidator(r.value)
  {
    if v.Str? && PhoneValidator(Trim(v.s)) then Some(Trim(v.s)) else None
  }

  /** `verificationCode`: a string, or null to unset it. */
  function CodeCast(v: Value): (r: Option<Option<string>>)
    ensures r == Some(None) <==> v.Null?
  {
    match v
    case Str(s) => Some(Some(s))
    case Null => Some(None)
    case _ => None
  }

  /** `verificationExpires`: a timestamp, or null to unset it. */
  function ExpiresCast(v: Value): (r: Option<Option<int>>)
    ensures r == Some(None) <==> v.Null?
  {
    match v
    case Num(n) => Some(Some(n.Floor))
    case Null => Some(None)
    case _ => None
  }

  /** A Boolean flag; null and a missing value read as false. */
  function FlagCast(v: Value): (r: Option<bool>)
    ensures v == Bool(true) ==> r == Some(true)
    ensures v == Bool(false) || v.Null? || v.Undefined? ==> r == Some(false)
  {
    match CastBoolean(v)
    case Boolean(b) => Some(b)
    case NoBoolean => Some(false)
    case NotBoolean => None
  }

  /** A whole `isVerified` object. */
  function VerifiedCast(v: Value): Option<Verified> {
    if !v.Obj? then None
    else
      var p := FlagCast(Field(v.fields, "phone"));
      var i := FlagCast(Field(v.fields, "id"));
      var e := FlagCast(Field(v.fields, "email"));
      if p.Some? && i.Some? && e.Some? then Some(Verified(p.value, i.value, e.value)) else None
  }

  /** The dotted paths of the three verification flags. */
  const FlagKeys: set<string> := {"isVerified.phone", "isVerified.id", "isVerified.email"}

  /**
   * The `isVerified` sub-document after an update: a whole object replaces
   * it, a dotted path sets one flag; naming both is a path conflict.
   */
  function VerifiedUpdate(current: Verified, sets: map<string, Value>): (a: Assign<Verified>)
    ensures a.Unchanged? <==> "isVerified" !in sets && FlagKeys !! sets.Keys
    ensures a.Assigned? && "isVerified" !in sets && "isVerified.phone" in sets ==>
              FlagCast(sets["isVerified.phone"]) == Some(a.value.phone)
  {
    if "isVerified" in sets then
      if FlagKeys !! sets.Keys then
        match VerifiedCast(sets["isVerified"])
        case None => Refused
        case Some(v) => Assigned(v)
      else Refused
    else
      var p := Lookup(sets, "isVerified.phone", FlagCast);
      var i := Lookup(sets, "isVerified.id", FlagCast);
      var e := Lookup(sets, "isVerified.email", FlagCast);
      if p.Refused? || i.Refused? || e.Refused? then Refused
      else if p.Unchanged? && i.Unchanged? && e.Unchanged? then Unchanged
      else Assigned(Verified(Pick(p, current.phone), Pick(i, current.id), Pick(e, current.email)))
  }

  /**
   * Every dotted profile key the update names (`location.county`,
   * `experience.years`, ...) casts and passes its validator, and its
   * parent path is not named as a whole as well: that is a path conflict.
   * Other dotted keys are not schema paths and are dropped.
   */
  predicate DottedCastsOk(sets: map<string, Value>) {
    forall p: Path, k :: k in FieldNames(p) && DottedKey(p, k) in sets ==>
      PathName(p) !in sets && CastField(FieldOf(p, k), sets[DottedKey(p, k)]).Some?
  }

  /** Every profile path the update names casts, and so does every dotted sub-path. */
  predicate ProfileCastsOk(sets: map<string, Value>) {
    && (forall p: Path :: PathName(p) in sets ==> CastPath(p, sets[PathName(p)]).Some?)
    && DottedCastsOk(sets)
  }

  /** The update's casts and validators all pass; none of them depends on the document. */
  predicate UpdateCastsOk(sets: map<string, Value>) {
    ProfileCastsOk(sets)
    && !Lookup(sets, "password", PasswordCast).Refused?
    && !Lookup(sets, "phone", PhoneCast).Refused?
    && !Lookup(sets, "verificationCode", CodeCast).Refused?
    && !Lookup(sets, "verificationExpires", ExpiresCast).Refused?
    && !VerifiedUpdate(Verified(false, false, false), sets).Refused?
  }

  /** The profile paths an update names. */
  function Named(sets: map<string, Value>): (t: set<Path>)
    ensures forall p :: p in t <==> PathName(p) in sets
  {
    assert forall p: Path :: p in AllPaths by {
      forall p: Path ensures p in AllPaths { AllPathsComplete(p); }
    }
    set q | q in AllPaths && PathName(q) in sets
  }

  /** The fields of `p` an update names by dotted keys. */
  function DottedFields(p: Path, sets: map<string, Value>): (t: set<string>)
    ensures forall k :: k in t <==> k in FieldNames(p) && DottedKey(p, k) in sets
  {
    set k | k in FieldNames(p) && DottedKey(p, k) in sets
  }

  /** The object paths an update reaches through dotted keys. */
  function SubNamed(sets: map<string, Value>): (t: set<Path>)
    ensures forall p :: p in t <==> DottedFields(p, sets) != {}
  {
    assert forall p: Path :: p in AllPaths by {
      forall p: Path ensures p in AllPaths { AllPathsComplete(p); }
    }
    set q | q in AllPaths && DottedFields(q, sets) != {}
  }

  /** The fields stored beneath `p`; none when the path is unset or not an object. */
  function StoredFields(profile: map<Path, Value>, p: Path): (fields: map<string, Value>)
    ensures p in profile && profile[p].Obj? ==> fields == profile[p].fields
  {
    if p in profile && profile[p].Obj? then profile[p].fields else map[]
  }

  /**
   * The fields of `p` after the update's dotted keys beneath it: each
   * named field takes its cast value and every other field is kept.
   */
  function Overlay(p: Path, base: map<string, Value>, sets: map<string, Value>): (r: map<string, Value>)
    requires DottedCastsOk(sets)
    ensures forall k :: k in r <==> k in base || k in DottedFields(p, sets)
    ensures forall k :: k in DottedFields(p, sets) ==> r[k] == CastField(FieldOf(p, k), sets[DottedKey(p, k)]).value
    ensures forall k :: k in base && k !in DottedFields(p, sets) ==> r[k] == base[k]
    ensures FieldsOk(p, base) ==> FieldsOk(p, r)
  {
    var named := DottedFields(p, sets);
    map k | k in base.Keys + named :: if k in named then CastField(FieldOf(p, k), sets[DottedKey(p, k)]).value else base[k]
  }

  /** The overlay reads only the dotted keys beneath `p`. */
  lemma OverlaySameKeys(p: Path, base: map<string, Value>, s: map<string, Value>, t: map<string, Value>)
    requires DottedCastsOk(s) && DottedCastsOk(t)
    requires forall k :: k in FieldNames(p) ==>
      (DottedKey(p, k) in s <==> DottedKey(p, k) in t) && (DottedKey(p, k) in s ==> s[DottedKey(p, k)] == t[DottedKey(p, k)])
    ensures Overlay(p, base, s) == Overlay(p, base, t)
  {
    assert DottedFields(p, s) == DottedFields(p, t);
  }

  /**
   * `after` is `before` with the update's profile paths applied: a named
   * path holds its cast value, an object reached by dotted keys holds its
   * stored fields overlaid with the cast named ones, and every path the
   * update does not reach is kept.
   */
  predicate ProfileUpdated(before: map<Path, Value>, after: map<Path, Value>, sets: map<string, Value>)
    requires ProfileCastsOk(sets)
  {
    && (forall p :: PathName(p) in sets ==> p in after && after[p] == CastPath(p, sets[PathName(p)]).value)
    && (forall p :: p in SubNamed(sets) ==> p in after && after[p] == Obj(Overlay(p, StoredFields(before, p), sets)))
    && (forall p :: PathName(p) !in sets && p !in SubNamed(sets) ==>
          (p in after <==> p in before) && (p in before ==> after[p] == before[p]))
  }

  /** Two updates that give every profile path and every dotted profile key the same value. */
  predicate SameProfileKeys(s: map<string, Value>, t: map<string, Value>) {
    && (forall p: Path :: (PathName(p) in s <==> PathName(p) in t) && (PathName(p) in s ==> s[PathName(p)] == t[PathName(p)]))
    && (forall p: Path, k :: k in FieldNames(p) ==>
          (DottedKey(p, k) in s <==> DottedKey(p, k) in t) && (DottedKey(p, k) in s ==> s[DottedKey(p, k)] == t[DottedKey(p, k)]))
  }

  /** Whether the profile casts pass depends only on the update's profile keys. */
  lemma ProfileCastsSameKeys(s: map<string, Value>, t: map<string, Value>)
    requires SameProfileKeys(s, t)
    ensures ProfileCastsOk(s) <==> ProfileCastsOk(t)
  {
  }

  /** The profile an update leaves depends only on its profile keys. */
  lemma ProfileUpdateSameKeys(before: map<Path, Value>, after: map<Path, Value>, s: map<string, Value>, t: map<string, Value>)
    requires SameProfileKeys(s, t) && ProfileCastsOk(s) && ProfileCastsOk(t)
    ensures ProfileUpdated(before, after, s) <==> ProfileUpdated(before, after, t)
  {
    assert SubNamed(s) == SubNamed(t) by {
      forall p ensures DottedFields(p, s) == DottedFields(p, t) { }
    }
    forall p ensures Overlay(p, StoredFields(before, p), s) == Overlay(p, StoredFields(before, p), t) {
      OverlaySameKeys(p, StoredFields(before, p), s, t);
    }
  }

  /**
   * `$set` on the profile: the named paths are overwritten by their cast
   * values and a dotted key writes one field of its parent object, which
   * is created when unset.
   */
  function MergeProfile(profile: map<Path, Value>, sets: map<string, Value>): (r: map<Path, Value>)
    requires ProfileCastsOk(sets)
    ensures ProfileUpdated(profile, r, sets)
    ensures ValidProfile(profile) && Location in profile ==> ValidProfile(r)
  {
    var sub := SubNamed(sets);
    var r := map p | p in profile.Keys + Named(sets) + sub
      :: if PathName(p) in sets then CastPath(p, sets[PathName(p)]).value
         else if p in sub then Obj(Overlay(p, StoredFields(profile, p), sets))
         else profile[p];
    assert ValidProfile(profile) && Location in profile ==> ValidProfile(r) by {
      if ValidProfile(profile) && Location in profile {
        forall p | p in sub && PathName(p) !in sets ensures PathOk(p, r[p]) {
          assert FieldNames(p) != {};
          assert p == Location ==> FieldsOk(p, StoredFields(profile, p));
          assert FieldsOk(p, StoredFields(profile, p));
        }
      }
    }
    r
  }

  /**
   * `findByIdAndUpdate(id, { $set: sets, updatedAt }, { runValidators })`
   * on a found user: the update is cast and validated path by path, the
   * unique phone index is checked against the other users, no save hook
   * runs (so a new password is stored unhashed), and `updatedAt` becomes
   * `now`. None is a refused update.
   */
  function SetPaths(u: User, sets: map<string, Value>, others: seq<User>, now: int): (r: Option<User>)
    ensures r.Some? <==> (UpdateCastsOk(sets)
      && (Lookup(sets, "phone", PhoneCast).Assigned? ==>
            PhoneFree(others, Lookup(sets, "phone", PhoneCast).value)))
    ensures r.Some? ==> r.value == Applied(u, sets, now)
    ensures r.Some? && "phone" in sets ==> PhoneFree(others, r.value.phone)
  {
    var phone := Lookup(sets, "phone", PhoneCast);
    if !UpdateCastsOk(sets) then None
    else if phone.Assigned? && exists i :: 0 <= i < |others| && others[i].phone == phone.value then None
    else Some(Applied(u, sets, now))
  }

  /**
   * The user after an update whose casts all pass: each named field takes
   * its cast value, every other field keeps its value, and `updatedAt`
   * becomes `now`.
   */
  function Applied(u: User, sets: map<string, Value>, now: int): (v: User)
    requires UpdateCastsOk(sets)
    ensures v.id == u.id && v.updatedAt == now
    ensures ProfileUpdated(u.profile, v.profile, sets)
    ensures "password" !in sets ==> v.password == u.password
    ensures "phone" !in sets ==> v.phone == u.phone
    ensures "phone" in sets ==> Some(v.phone) == PhoneCast(sets["phone"])
    ensures "verificationCode" !in sets ==> v.verificationCode == u.verificationCode
    ensures "verificationExpires" !in sets ==> v.verificationExpires == u.verificationExpires
    ensures "isVerified" !in sets && FlagKeys !! sets.Keys ==> v.isVerified == u.isVerified
    ensures VerifiedUpdate(u.isVerified, sets).Assigned? ==> v.isVerified == VerifiedUpdate(u.isVerified, sets).value
    ensures "password" in sets ==> v.password == sets["password"].s
  {
    TypedUpdate(u, sets).(profile := MergeProfile(u.profile, sets), updatedAt := now)
  }

  /** The typed fields after an update whose casts pass; the profile and timestamps are left alone. */
  function TypedUpdate(u: User, sets: map<string, Value>): (v: User)
    requires UpdateCastsOk(sets)
    ensures v.id == u.id && v.profile == u.profile && v.updatedAt == u.updatedAt
    ensures "password" !in sets ==> v.password == u.password
    ensures "phone" !in sets ==> v.phone == u.phone
    ensures "phone" in sets ==> Some(v.phone) == PhoneCast(sets["phone"])
    ensures "verificationCode" !in sets ==> v.verificationCode == u.verificationCode
    ensures "verificationExpires" !in sets ==> v.verificationExpires == u.verificationExpires
    ensures "isVerified" !in sets && FlagKeys !! sets.Keys ==> v.isVerified == u.isVerified
    ensures VerifiedUpdate(u.isVerified, sets).Assigned? ==> v.isVerified == VerifiedUpdate(u.isVerified, sets).value
    ensures "password" in sets ==> v.password == sets["password"].s
  {
    var verified := VerifiedUpdate(u.isVerified, sets);
    VerifiedRefusalIgnoresCurrent(u.isVerified, sets);
    u.(phone := Pick(Lookup(sets, "phone", PhoneCast), u.phone),
       password := Pick(Lookup(sets, "password", PasswordCast), u.password),
       isVerified := Pick(verified, u.isVerified),
       verificationCode := Pick(Lookup(sets, "verificationCode", CodeCast), u.verificationCode),
       verificationExpires := Pick(Lookup(sets, "verificationExpires", ExpiresCast), u.verificationExpires))
  }

  /** Whether a flag update is refused does not depend on the current flags. */
  lemma VerifiedRefusalIgnoresCurrent(current: Verified, sets: map<string, Value>)
    ensures VerifiedUpdate(current, sets).Refused? == VerifiedUpdate(Verified(false, false, false), sets).Refused?
  {
  }

  /** An update whose casts pass keeps the document valid: every value it stores passed its validator. */
  lemma AppliedKeepsValid(u: User, sets: map<string, Value>, now: int)
    requires UpdateCastsOk(sets) && ValidUser(u)
    ensures ValidUser(Applied(u, sets, now))
  {
    var v := Applied(u, sets, now);
    assert PhoneValidator(v.phone);
    assert ValidProfile(v.profile);
  }

  /** A dotted profile key starts with `l`, `e` or `n`, the initials of the three object paths. */
  lemma DottedKeyHead(p: Path, k: string)
    requires FieldNames(p) != {}
    ensures DottedKey(p, k)[0] == PathName(p)[0] && DottedKey(p, k)[0] in {'l', 'e', 'n'}
  {
    var key := DottedKey(p, k);
    assert key[..|PathName(p)|][0] == key[0];
  }

  /** A dotted profile key names one field of one path. */
  lemma DottedKeyInjective(p: Path, k: string, q: Path, j: string)
    requires k in FieldNames(p) && j in FieldNames(q) && DottedKey(p, k) == DottedKey(q, j)
    ensures p == q && k == j
  {
    DottedKeyHead(p, k);
    DottedKeyHead(q, j);
    var key := DottedKey(p, k);
    assert key == PathName(p) + "." + k;
    assert p == q;
    assert k == key[|PathName(p)| + 1..] == j;
  }

  /**
   * An update whose keys all start with `l`, `e` or `n` names no typed
   * field: its casts pass exactly when its profile casts do.
   */
  lemma TypedKeysAbsent(sets: map<string, Value>)
    requires forall key :: key in sets ==> |key| > 0 && key[0] in {'l', 'e', 'n'}
    ensures UpdateCastsOk(sets) <==> ProfileCastsOk(sets)
    ensures "password" !in sets && "phone" !in sets && "isVerified" !in sets && FlagKeys !! sets.Keys
    ensures "verificationCode" !in sets && "verificationExpires" !in sets
  {
    assert "password"[0] == 'p' && "phone"[0] == 'p' && "isVerified"[0] == 'i';
    assert "verificationCode"[0] == 'v' && "verificationExpires"[0] == 'v';
    forall f | f in FlagKeys ensures f !in sets {
      assert f[0] == 'i';
    }
    assert VerifiedUpdate(Verified(false, false, false), sets).Unchanged?;
  }

  /** The single dotted key of field `k` beneath `p` names no path and no other field. */
  lemma SingleDottedKey(p: Path, k: string, v: Value)
    requires k in FieldNames(p)
    ensures var sets := map[DottedKey(p, k) := v];
      (forall q: Path :: PathName(q) !in sets)
      && DottedFields(p, sets) == {k}
      && (forall q :: q != p ==> DottedFields(q, sets) == {})
      && (forall key :: key in sets ==> |key| > 0 && key[0] in {'l', 'e', 'n'})
  {
    var key := DottedKey(p, k);
    var sets := map[key := v];
    DottedKeyHead(p, k);
    forall q: Path, j | j in FieldNames(q) && DottedKey(q, j) in sets ensures q == p && j == k {
      DottedKeyInjective(p, k, q, j);
    }
  }

  /**
   * An update reaching only field `k` beneath `p`, as the single dotted
   * key of `SingleDottedKey` does, writes that field's cast value into
   * the stored object and keeps its other fields; every other path keeps
   * its value.
   */
  lemma OneFieldMerge(profile: map<Path, Value>, p: Path, k: string, sets: map<string, Value>)
    requires ProfileCastsOk(sets) && k in FieldNames(p)
    requires (forall q: Path :: PathName(q) !in sets) && DottedFields(p, sets) == {k}
    requires forall q :: q != p ==> DottedFields(q, sets) == {}
    ensures var after := MergeProfile(profile, sets);
      after[p] == Obj(StoredFields(profile, p)[k := CastField(FieldOf(p, k), sets[DottedKey(p, k)]).value])
      && (forall q :: q != p ==> (q in after <==> q in profile))
      && (forall q :: q != p && q in profile ==> after[q] == profile[q])
  {
    assert p in SubNamed(sets);
    OverlayOneField(p, k, StoredFields(profile, p), sets);
  }

  /** An overlay of one named field is a single map update. */
  lemma OverlayOneField(p: Path, k: string, base: map<string, Value>, sets: map<string, Value>)
    requires DottedCastsOk(sets) && DottedFields(p, sets) == {k}
    ensures Overlay(p, base, sets) == base[k := CastField(FieldOf(p, k), sets[DottedKey(p, k)]).value]
  {
  }

  /** `{"experience.years": -1}` fails the `min: 0` validator, and `{"location.county": null}` the `required` one. */
  lemma DottedValidatorsRun()
    ensures !UpdateCastsOk(map["experience.years" := Num(-1.0)])
    ensures !UpdateCastsOk(map["location.county" := Null])
  {
    assert DottedKey(Experience, "years") == "experience.years";
    assert FieldOf(Experience, "years") == Years;
    assert DottedKey(Location, "county") == "location.county";
    assert FieldOf(Location, "county") == County;
  }

  /** Naming a path together with one of its dotted sub-paths is a conflict: the update is refused. */
  lemma ParentAndChildConflict(v: Value, w: Value)
    ensures !UpdateCastsOk(map["location" := v, "location.county" := w])
  {
    assert DottedKey(Location, "county") == "location.county";
    assert PathName(Location) == "location";
  }

  /* -------------------------------------------------------------- toJSON */

  /** The keys of a user rendered as a plain object. */
  datatype Key = ProfileKey(path: Path) | IdKey | PhoneKey | PasswordKey | IsVerifiedKey | CodeKey | ExpiresKey | UpdatedAtKey

  /** The user as a plain object: the profile paths and the typed paths. */
  function ToObject(u: User): (o: map<Key, Value>)
    ensures forall p :: p in u.profile ==> ProfileKey(p) in o && o[ProfileKey(p)] == u.profile[p]
    ensures PasswordKey in o && o[PasswordKey] == Str(u.password)
    ensures PhoneKey in o && o[PhoneKey] == Str(u.phone)
    ensures CodeKey in o <==> u.verificationCode.Some?
  {
    ProfileObject(u.profile) + TypedObject(u)
  }

  /** The profile paths under their keys. */
  function ProfileObject(profile: map<Path, Value>): (o: map<Key, Value>)
    ensures forall p :: p in profile ==> ProfileKey(p) in o && o[ProfileKey(p)] == profile[p]
    ensures forall k :: k in o ==> k.ProfileKey?
  {
    map k | k in (set p | p in profile :: ProfileKey(p)) :: profile[k.path]
  }

  /** The typed paths; the code and its expiry only when set. */
  function TypedObject(u: User): (o: map<Key, Value>)
    ensures PasswordKey in o && o[PasswordKey] == Str(u.password)
    ensures PhoneKey in o && o[PhoneKey] == Str(u.phone)
    ensures CodeKey in o <==> u.verificationCode.Some?
    ensures forall k :: k in o ==> !k.ProfileKey?
  {
    var verified := Obj(map["phone" := Bool(u.isVerified.phone), "id" := Bool(u.isVerified.id),
                            "email" := Bool(u.isVerified.email)]);
    var typed := map[IdKey := Num(u.id as real), PhoneKey := Str(u.phone), PasswordKey := Str(u.password),
                     IsVerifiedKey := verified, UpdatedAtKey := Num(u.updatedAt as real)];
    var withCode := if u.verificationCode.Some? then typed[CodeKey := Str(u.verificationCode.value)] else typed;
    if u.verificationExpires.Some? then withCode[ExpiresKey := Num(u.verificationExpires.value as real)] else withCode
  }

  const SecretKeys: set<Key> := {PasswordKey, CodeKey, ExpiresKey}

  /**
   * `toJSON`: the plain object without the password, the verification
   * code and its expiry; every other key is kept with its value.
   */
  function ToJson(u: User): (json: map<Key, Value>)
    ensures PasswordKey !in json && CodeKey !in json && ExpiresKey !in json
    ensures forall k :: k in ToObject(u) && k !in SecretKeys ==> k in json && json[k] == ToObject(u)[k]
    ensures json.Keys <= ToObject(u).Keys
  {
    ToObject(u) - SecretKeys
  }
}
