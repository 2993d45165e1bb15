/**
 * The Mongoose job handlers (backend/controllers/jobControllers.js):
 * featured jobs, the job page with its view counter and similar jobs, job
 * creation with its defaults, applying, and the open-job counts.
 */
module JobController {
  import opened Wrappers
  import opened Js
  import opened Text
  import opened Documents
  import opened JobSchema
  import opened ApplicationSchema
  import opened Store
  import UserSchema
  import Seqs

  datatype JobError =
    | JobNotFound
    | JobNotOpen
    | AlreadyApplied
    | MissingRequiredFields
    | ValidationFailed(paths: set<string>)
    | ServerError

  /* -------------------------------------------------------------- featured */

  function CreatedAt(j: Job): int { j.createdAt }

  predicate IsFeatured(j: Job) { j.featured }

  /**
   * `getFeaturedJobs`: `find({ featured: true }).sort({ createdAt: -1 })
   * .limit(10)`.
   */
  function FeaturedJobs(db: Db): (r: seq<Job>)
    ensures |r| <= 10
    ensures forall i :: 0 <= i < |r| ==> r[i].featured
    ensures Seqs.SortedDesc(r, CreatedAt)
    ensures multiset(r) <= multiset(db.jobs)
  {
    Seqs.Top(db.jobs, IsFeatured, CreatedAt, 10)
  }

  /**
   * The ten returned are the newest: a featured job left out is no newer
   * than any job returned, and with ten or fewer featured jobs all of them
   * are returned.
   */
  lemma {:induction false} FeaturedJobsAreNewest(db: Db, j: Job)
    requires j in db.jobs && j.featured && j !in FeaturedJobs(db)
    ensures |FeaturedJobs(db)| == 10
    ensures forall i :: 0 <= i < 10 ==> FeaturedJobs(db)[i].createdAt >= j.createdAt
  {
    var featured := Seqs.Filter(db.jobs, IsFeatured);
    var sorted := Seqs.SortDesc(featured, CreatedAt);
    Seqs.FilterMultiset(db.jobs, IsFeatured);
    assert j in multiset(sorted);
    var p :| 0 <= p < |sorted| && sorted[p] == j;
    var r := Seqs.Take(sorted, 10);
    assert r == FeaturedJobs(db);
  }

  /* ------------------------------------------------------------ job page */

  predicate SimilarTo(j: Job, x: Job) {
    x.id != j.id && x.category == j.category && x.status == Open
  }

  /**
   * `getJobById`: not found for an unknown id; otherwise the view count
   * goes up by one and the job is saved, so the pre-save hook resets the
   * application count to the length of the embedded array. Up to three
   * open jobs of the same category, other than this one, come with it.
   */
  function GetJobById(db: Db, id: Id): (r: Result<(Db, Job, seq<Job>), JobError>)
    ensures r.Err? <==> forall i :: 0 <= i < |db.jobs| ==> db.jobs[i].id != id
    ensures r.Err? ==> r.error == JobNotFound
    ensures r.Ok? ==> var (db', job, similar) := r.value;
      var k := JobIndex(db.jobs, id);
      && k < |db.jobs| && job.id == id
      && job.views == db.jobs[k].views + 1
      && job.applicationsCount == |db.jobs[k].applications|
      && job.(views := db.jobs[k].views, applicationsCount := db.jobs[k].applicationsCount) == db.jobs[k]
      && db' == db.(jobs := db.jobs[k := job])
      && |similar| <= 3
      && (forall i :: 0 <= i < |similar| ==> SimilarTo(job, similar[i]) && similar[i] in db.jobs)
      && (|similar| == 3 || forall i :: 0 <= i < |db.jobs| && SimilarTo(job, db.jobs[i]) ==> db.jobs[i] in similar)
      && (WellFormed(db) ==> WellFormed(db'))
  {
    var k := JobIndex(db.jobs, id);
    if k == |db.jobs| then Err(JobNotFound)
    else
      var job := PreSave(db.jobs[k].(views := db.jobs[k].views + 1));
      var jobs := db.jobs[k := job];
      var similar := Seqs.Take(Seqs.Filter(jobs, (x: Job) => SimilarTo(job, x)), 3);
      SimilarComesFromStore(db.jobs, k, job, similar);
      Ok((db.(jobs := jobs), job, similar))
  }

  lemma SimilarComesFromStore(jobs: seq<Job>, k: nat, job: Job, similar: seq<Job>)
    requires k < |jobs| && job.id == jobs[k].id
    requires similar == Seqs.Take(Seqs.Filter(jobs[k := job], (x: Job) => SimilarTo(job, x)), 3)
    ensures forall i :: 0 <= i < |similar| ==> SimilarTo(job, similar[i]) && similar[i] in jobs
    ensures |similar| == 3 || forall i :: 0 <= i < |jobs| && SimilarTo(job, jobs[i]) ==> jobs[i] in similar
  {
    var all := jobs[k := job];
    var p := (x: Job) => SimilarTo(job, x);
    Seqs.FilterMultiset(all, p);
    var f := Seqs.Filter(all, p);
    if |similar| != 3 {
      forall i | 0 <= i < |jobs| && SimilarTo(job, jobs[i]) ensures jobs[i] in similar {
        assert all[i] == jobs[i];
        assert jobs[i] in multiset(all);
        assert jobs[i] in multiset(f);
      }
    }
    forall i | 0 <= i < |similar| ensures similar[i] in jobs {
      assert similar[i] == f[i];
      assert f[i] in multiset(all);
      var m :| 0 <= m < |all| && all[m] == f[i];
      assert m != k;
    }
  }

  /* ------------------------------------------------------------ applying */

  /**
   * `applyForJob`: the guards run in order (job exists, job open, no
   * earlier application by this worker), and nothing is stored when one
   * fails. Otherwise one pending application is stored, with the cover
   * message defaulting to "", and its post-save hook adds one to the job's
   * count. `appId` is the fresh ObjectId the database assigns.
   */
  function ApplyForJob(db: Db, jobId: Id, workerId: Id, coverMessage: Option<string>, appId: Id, now: int)
    : (r: Result<(Db, Application), JobError>)
    requires !ApplicationIdUsed(db, appId)
    ensures JobIndex(db.jobs, jobId) == |db.jobs| ==> r == Err(JobNotFound)
    ensures JobIndex(db.jobs, jobId) < |db.jobs| && db.jobs[JobIndex(db.jobs, jobId)].status != Open ==> r == Err(JobNotOpen)
    ensures (JobIndex(db.jobs, jobId) < |db.jobs| && db.jobs[JobIndex(db.jobs, jobId)].status == Open
             && HasApplied(db, jobId, workerId)) ==> r == Err(AlreadyApplied)
    ensures r.Ok? <==> JobIndex(db.jobs, jobId) < |db.jobs| && db.jobs[JobIndex(db.jobs, jobId)].status == Open
                       && !HasApplied(db, jobId, workerId)
    ensures r.Ok? ==> var (db', a) := r.value;
      && a.job == jobId && a.worker == workerId && a.id == appId
      && a.status == Pending && a.appliedAt == now
      && a.coverMessage == Some(if coverMessage.Some? then coverMessage.value else "")
      && db'.applications == db.applications + [a]
      && db'.jobs == PostSave(db.jobs, a) && db'.users == db.users
      && (WellFormed(db) ==> WellFormed(db'))
  {
    var k := JobIndex(db.jobs, jobId);
    if k == |db.jobs| then Err(JobNotFound)
    else if db.jobs[k].status != Open then Err(JobNotOpen)
    else if HasApplied(db, jobId, workerId) then Err(AlreadyApplied)
    else
      var message := if coverMessage.Some? then coverMessage.value else "";
      var a := NewApplication(appId, jobId, workerId, Some(message), now);
      match SaveApplication(db, a)
      case Ok(db') => Ok((db', a))
      case Err(_) => Err(AlreadyApplied)
  }

  /** The Application documents of a job grow by one with each successful apply. */
  lemma ApplyAddsOneApplication(db: Db, jobId: Id, workerId: Id, coverMessage: Option<string>, appId: Id, now: int)
    requires !ApplicationIdUsed(db, appId)
    requires ApplyForJob(db, jobId, workerId, coverMessage, appId, now).Ok?
    ensures var (db', a) := ApplyForJob(db, jobId, workerId, coverMessage, appId, now).value;
      ApplicationsFor(db', jobId) == ApplicationsFor(db, jobId) + [a]
  {
    var (db', a) := ApplyForJob(db, jobId, workerId, coverMessage, appId, now).value;
    Seqs.FilterAppend(db.applications, [a], (x: Application) => x.job == jobId);
  }

  /**
   * The two counter mechanisms disagree: on a job with an empty embedded
   * array and no applications, one apply stores one Application and sets
   * the count to 1, and the next page view saves the job and puts the count
   * back to 0 while the Application remains.
   */
  lemma CounterDivergesAfterView(db: Db, jobId: Id, workerId: Id, appId: Id, now: int)
    requires WellFormed(db) && !ApplicationIdUsed(db, appId)
    requires JobIndex(db.jobs, jobId) < |db.jobs|
    requires var j := db.jobs[JobIndex(db.jobs, jobId)];
      j.status == Open && j.applications == [] && j.applicationsCount == 0
    requires ApplicationsFor(db, jobId) == []
    ensures var applied := ApplyForJob(db, jobId, workerId, None, appId, now);
      && applied.Ok?
      && var db1 := applied.value.0;
      && db1.jobs[JobIndex(db1.jobs, jobId)].applicationsCount == 1
      && GetJobById(db1, jobId).Ok?
      && var (db2, job, _) := GetJobById(db1, jobId).value;
      && job.applicationsCount == 0
      && |ApplicationsFor(db2, jobId)| == 1
  {
    var k := JobIndex(db.jobs, jobId);
    Seqs.FilterMultiset(db.applications, (x: Application) => x.job == jobId);
    forall i | 0 <= i < |db.applications| ensures db.applications[i].job != jobId {
      assert db.applications[i] in multiset(db.applications);
    }
    ApplyAddsOneApplication(db, jobId, workerId, None, appId, now);
    var (db1, a) := ApplyForJob(db, jobId, workerId, None, appId, now).value;
    assert JobIndex(db1.jobs, jobId) == k by {
      assert forall i :: 0 <= i < |db.jobs| ==> db1.jobs[i].id == db.jobs[i].id;
    }
  }

  /* --------------------------------------------------------- demo employer */

  /** The phone `createJob` looks its employer up by, and creates one with. */
  const DemoPhone: string := "254700000000"

  /** The profile paths `User.create` is given: an employer named Demo Employer in Nairobi. */
  function DemoFields(): (m: map<UserSchema.Path, Value>)
    ensures UserSchema.ValidProfile(m) && UserSchema.HasRequiredPaths(m)
    ensures m[UserSchema.UserType] == Str("employer") && m[UserSchema.Name] == Str("Demo Employer")
    ensures m[UserSchema.Location] == Obj(map["county" := Str("Nairobi")])
  {
    var name := "Demo Employer";
    assert UserSchema.PathOk(UserSchema.Name, Str(name)) by {
      assert !IsSpace(name[0]) && !IsSpace(name[|name| - 1]);
    }
    var location := Obj(map["county" := Str("Nairobi")]);
    assert UserSchema.PathOk(UserSchema.Location, location) by {
      assert UserSchema.FieldNames(UserSchema.Location) == {"county", "subCounty", "ward"};
    }
    map[UserSchema.UserType := Str("employer"), UserSchema.Name := Str(name), UserSchema.Location := location]
  }

  /** The demo phone passes the phone validator: twelve digits. */
  lemma DemoPhoneValid()
    ensures UserSchema.PhoneValidator(DemoPhone)
  {
    assert forall i :: 0 <= i < |DemoPhone| ==> IsDigit(DemoPhone[i]);
  }

  /**
   * A user created with the phone flag already verified: the other flags
   * and every path not given at their defaults, no verification code, the
   * password still in the clear.
   */
  function PhoneVerifiedUser(id: Id, phone: string, password: string, fields: map<UserSchema.Path, Value>, now: int): (u: UserSchema.User)
    requires UserSchema.PhoneValidator(phone) && UserSchema.ValidProfile(fields) && UserSchema.HasRequiredPaths(fields)
    ensures u.id == id && u.phone == phone && u.password == password
    ensures u.isVerified == UserSchema.Verified(true, false, false)
    ensures u.verificationCode.None? && u.verificationExpires.None?
    ensures u.profile.Keys == fields.Keys + UserSchema.DefaultProfile(now).Keys
    ensures forall p :: p in fields ==> u.profile[p] == fields[p]
    ensures UserSchema.ValidUser(u)
  {
    UserSchema.NewUser(id, phone, password, fields, None, None, now).(isVerified := UserSchema.Verified(true, false, false))
  }

  /** The unsaved demo employer, its password `demo123`. */
  function DemoEmployer(id: Id, now: int): (u: UserSchema.User)
    ensures u.id == id && u.phone == DemoPhone && u.password == "demo123"
    ensures u.isVerified == UserSchema.Verified(true, false, false)
    ensures UserSchema.ValidUser(u)
  {
    DemoPhoneValid();
    PhoneVerifiedUser(id, DemoPhone, "demo123", DemoFields(), now)
  }

  /**
   * `User.findOne({ phone }) || User.create(u)`: the first user holding
   * `phone` when there is one, the store left as it is; otherwise `u`, which
   * passes validation under a fresh id, is saved (the pre-save hook hashes
   * its password) and appended. Either way the user returned is then the
   * first holder of `phone`.
   */
  function FindOrCreate(db: Db, phone: string, u: UserSchema.User, hash: string -> string): (r: (Db, Id))
    requires u.phone == phone && UserSchema.ValidUser(u) && |u.password| >= 6
    requires forall i :: 0 <= i < |db.users| ==> db.users[i].id != u.id
    ensures r.0.jobs == db.jobs && r.0.applications == db.applications
    ensures |db.users| <= |r.0.users| <= |db.users| + 1 && r.0.users[..|db.users|] == db.users
    ensures |r.0.users| > |db.users| ==> r.0.users[|db.users|].id == u.id
    ensures FindByPhone(db.users, phone) < |db.users| ==> r == (db, db.users[FindByPhone(db.users, phone)].id)
    ensures UserSchema.PhoneFree(db.users, phone) ==>
      r.1 == u.id && r.0.users == db.users + [UserSchema.PreSave(u, None, hash)]
    ensures FindByPhone(r.0.users, phone) < |r.0.users| && r.0.users[FindByPhone(r.0.users, phone)].id == r.1
    ensures WellFormed(db) ==> WellFormed(r.0)
  {
    var k := FindByPhone(db.users, phone);
    if k < |db.users| then (db, db.users[k].id)
    else
      var saved := UserSchema.Save(u, None, db.users, hash);
      var users := db.users + [saved.value];
      AppendUserKeepsWellFormed(db, saved.value);
      assert FindByPhone(users, phone) == |db.users| by {
        assert users[|db.users|].phone == phone;
      }
      (db.(users := users), u.id)
  }

  /**
   * The employer `createJob` attaches: the first user holding `DemoPhone`,
   * or the demo employer created under the fresh id `userId`.
   */
  function ResolveEmployer(db: Db, userId: Id, now: int, hash: string -> string): (r: (Db, Id))
    requires forall i :: 0 <= i < |db.users| ==> db.users[i].id != userId
    ensures r.0.jobs == db.jobs && r.0.applications == db.applications
    ensures |db.users| <= |r.0.users| <= |db.users| + 1 && r.0.users[..|db.users|] == db.users
    ensures |r.0.users| > |db.users| ==> r.0.users[|db.users|].id == userId
    ensures FindByPhone(db.users, DemoPhone) < |db.users| ==> r == (db, db.users[FindByPhone(db.users, DemoPhone)].id)
    ensures UserSchema.PhoneFree(db.users, DemoPhone) ==>
      r.1 == userId && r.0.users == db.users + [UserSchema.PreSave(DemoEmployer(userId, now), None, hash)]
    ensures FindByPhone(r.0.users, DemoPhone) < |r.0.users| && r.0.users[FindByPhone(r.0.users, DemoPhone)].id == r.1
    ensures WellFormed(db) ==> WellFormed(r.0)
  {
    FindOrCreate(db, DemoPhone, DemoEmployer(userId, now), hash)
  }

  /**
   * `findOne || create` run twice for one phone creates at most once: the
   * second run finds the user the first one returned and leaves the store
   * as it is.
   */
  lemma FindOrCreateOnce(db: Db, phone: string, u: UserSchema.User, v: UserSchema.User, hash: string -> string)
    requires u.phone == phone && UserSchema.ValidUser(u) && |u.password| >= 6
    requires v.phone == phone && UserSchema.ValidUser(v) && |v.password| >= 6
    requires forall i :: 0 <= i < |db.users| ==> db.users[i].id != u.id && db.users[i].id != v.id
    requires u.id != v.id
    ensures var (db1, found) := FindOrCreate(db, phone, u, hash);
      && (forall i :: 0 <= i < |db1.users| ==> db1.users[i].id != v.id)
      && FindOrCreate(db1, phone, v, hash) == (db1, found)
  {
    var (db1, found) := FindOrCreate(db, phone, u, hash);
    forall i | 0 <= i < |db1.users| ensures db1.users[i].id != v.id {
      if i < |db.users| {
        assert db1.users[i] == db1.users[..|db.users|][i];
      }
    }
  }

  /**
   * Creating jobs one after another attaches them to one employer: the
   * second lookup finds the user the first one resolved and leaves the
   * store as it is.
   */
  lemma ResolveEmployerOnce(db: Db, userId: Id, nextId: Id, now: int, later: int, hash: string -> string)
    requires forall i :: 0 <= i < |db.users| ==> db.users[i].id != userId && db.users[i].id != nextId
    requires nextId != userId
    ensures var (db1, employer) := ResolveEmployer(db, userId, now, hash);
      && (forall i :: 0 <= i < |db1.users| ==> db1.users[i].id != nextId)
      && ResolveEmployer(db1, nextId, later, hash) == (db1, employer)
  {
    FindOrCreateOnce(db, DemoPhone, DemoEmployer(userId, now), DemoEmployer(nextId, later), hash);
  }

  /* ------------------------------------------------------------- creating */

  /** The request body fields `createJob` reads. */
  datatype CreateJobBody = CreateJobBody(
    title: Value, description: Value, jobType: Value, category: Value,
    location: Value, salary: Value, skills: Value,
    contactPhone: Value, contactWhatsApp: Value, isUrgent: Value, employerName: Value)

  /** `skills.split(',').map(s => s.trim())`. */
  function TrimEach(parts: seq<string>): (r: seq<string>)
    ensures |r| == |parts| && forall i :: 0 <= i < |r| ==> r[i] == Trim(parts[i])
  {
    seq(|parts|, i requires 0 <= i < |parts| => Trim(parts[i]))
  }

  /** The skills value: an array as given, a string split on commas, nothing for a falsy value; None is the TypeError of calling `split` on anything else. */
  function SkillsOf(skills: Value): (r: Option<Value>)
    ensures r.Some? ==> r.value.Arr?
    ensures skills.Arr? ==> r == Some(skills)
    ensures skills.Str? && skills.s != [] ==> r.Some? && |r.value.items| == |Split(skills.s, ',')|
    ensures skills.Str? && skills.s != [] ==> forall i :: 0 <= i < |r.value.items| ==> r.value.items[i] == Str(Trim(Split(skills.s, ',')[i]))
    ensures r.None? <==> Truthy(skills) && !skills.Arr? && !skills.Str?
    ensures !Truthy(skills) ==> r == Some(Arr([]))
  {
    if skills.Arr? then Some(skills)
    else if !Truthy(skills) then Some(Arr([]))
    else if skills.Str? then
      var parts := TrimEach(Split(skills.s, ','));
      Some(Arr(seq(|parts|, i requires 0 <= i < |parts| => Str(parts[i]))))
    else None
  }

  /** The values `createJob` hands to the Job constructor. */
  datatype JobInput = JobInput(
    county: Value, exactLocation: Value, amount: Value, period: Value, isNegotiable: Value, skills: Value)

  /** The `||` fallbacks of the constructor call. */
  function InputOf(b: CreateJobBody, skills: Value): (x: JobInput)
    ensures !Truthy(b.location) ==> x.county == Str("Nairobi")
    ensures !Truthy(Get(b.salary, "period")) ==> x.period == Str("day")
    ensures Truthy(Get(b.salary, "period")) ==> x.period == Get(b.salary, "period")
    ensures !Truthy(b.salary) ==> x.amount == Num(0.0)
  {
    JobInput(
      Or(Or(Get(b.location, "county"), b.location), Str("Nairobi")),
      Or(Or(Get(b.location, "town"), Get(b.location, "exactLocation")), Str("")),
      Or(Or(Get(b.salary, "amount"), b.salary), Num(0.0)),
      Or(Get(b.salary, "period"), Str("day")),
      Or(Get(b.salary, "isNegotiable"), Bool(false)),
      skills)
  }

  /** The enum paths cast to String first and then check the enum. */
  function ParsedType(v: Value): Option<JobType> {
    if CastString(v).Some? then ParseJobType(CastString(v).value) else None
  }

  function ParsedCategory(v: Value): Option<Category> {
    if CastString(v).Some? then ParseCategory(CastString(v).value) else None
  }

  function ParsedPeriod(v: Value): Option<SalaryPeriod> {
    if CastString(v).Some? then ParsePeriod(CastString(v).value) else None
  }

  /** A String path holding a value that casts to a non-empty string (`required`). */
  predicate RequiredString(v: Value) {
    CastString(v).Some? && CastString(v).value != []
  }

  /** The title: it casts, and something is left once the `trim` setter has run (`required`). */
  predicate TitleOk(v: Value) {
    CastString(v).Some? && Trim(CastString(v).value) != []
  }

  /** An array whose every element casts to String. */
  predicate StringElements(v: Value) {
    v.Arr? && forall i :: 0 <= i < |v.items| ==> CastString(v.items[i]).Some?
  }

  predicate AmountOk(v: Value) {
    CastNumber(v).Number? && CastNumber(v).n >= 0.0
  }

  /** Every path of the constructed job casts and passes its validator. */
  predicate InputOk(b: CreateJobBody, x: JobInput) {
    && TitleOk(b.title) && RequiredString(b.description)
    && ParsedType(b.jobType).Some? && ParsedCategory(b.category).Some?
    && RequiredString(x.county) && CastString(x.exactLocation).Some?
    && AmountOk(x.amount) && ParsedPeriod(x.period).Some?
    && CastBoolean(x.isNegotiable) != NotBoolean
    && StringElements(x.skills)
  }

  /** The schema paths whose cast or validator fails for these values. */
  function FailingPaths(b: CreateJobBody, x: JobInput): (paths: set<string>)
    ensures paths == {} <==> InputOk(b, x)
  {
    (if TitleOk(b.title) then {} else {"title"})
    + (if RequiredString(b.description) then {} else {"description"})
    + (if ParsedType(b.jobType).Some? then {} else {"type"})
    + (if ParsedCategory(b.category).Some? then {} else {"category"})
    + (if RequiredString(x.county) then {} else {"location.county"})
    + (if CastString(x.exactLocation).Some? then {} else {"location.exactLocation"})
    + (if AmountOk(x.amount) then {} else {"salary.amount"})
    + (if ParsedPeriod(x.period).Some? then {} else {"salary.period"})
    + (if CastBoolean(x.isNegotiable) != NotBoolean then {} else {"salary.isNegotiable"})
    + (if StringElements(x.skills) then {} else {"skills"})
  }

  /**
   * The job `createJob` stores for body `b` with fallbacks `x`: every
   * submitted value cast to its path (the title trimmed, the skills cast
   * and trimmed one by one), an urgency coerced to Boolean, the defaults
   * (status open, not featured, KES, no views, no applications, no
   * contact numbers), and the schema's validators met.
   */
  predicate Carries(job: Job, b: CreateJobBody, x: JobInput, id: Id, employer: Id, now: int)
    requires InputOk(b, x)
  {
    && job.id == id && job.employer == employer && job.createdAt == now
    && job.status == Open && !job.featured && job.salary.currency == "KES"
    && job.views == 0 && job.applicationsCount == 0 && job.applications == []
    && job.contactPhone.None? && job.contactWhatsApp.None?
    && job.isUrgent == Truthy(b.isUrgent)
    && job.title == Trim(CastString(b.title).value) && job.description == CastString(b.description).value
    && Some(job.jobType) == ParsedType(b.jobType) && Some(job.category) == ParsedCategory(b.category)
    && job.location == JobLocation(CastString(x.county).value, CastString(x.exactLocation).value)
    && CastNumber(x.amount) == Number(job.salary.amount) && Some(job.salary.period) == ParsedPeriod(x.period)
    && (job.salary.isNegotiable <==> CastBoolean(x.isNegotiable) == Boolean(true))
    && |job.skills| == |x.skills.items|
    && (forall i :: 0 <= i < |job.skills| ==> job.skills[i] == Trim(CastString(x.skills.items[i]).value))
    && ValidJob(job)
  }

  /** The job the constructor builds once every path casts and validates. */
  function BuildJob(b: CreateJobBody, x: JobInput, id: Id, employer: Id, now: int): (job: Job)
    requires InputOk(b, x)
    ensures Carries(job, b, x, id, employer, now)
  {
    var skills := TrimmedSkills(x.skills.items);
    var job := NewJob(id, Trim(CastString(b.title).value), CastString(b.description).value, ParsedType(b.jobType).value,
                      ParsedCategory(b.category).value,
                      JobLocation(CastString(x.county).value, CastString(x.exactLocation).value),
                      CastNumber(x.amount).n, ParsedPeriod(x.period).value, employer, now);
    job.(skills := skills, salary := job.salary.(isNegotiable := CastBoolean(x.isNegotiable) == Boolean(true)),
         isUrgent := Truthy(b.isUrgent))
  }

  /** A whole-number title casts to its decimal spelling, which the `trim` setter leaves alone. */
  lemma WholeNumberTitle(b: CreateJobBody, x: JobInput, n: real, id: Id, employer: Id, now: int)
    requires InputOk(b, x) && PlainInteger(n)
    ensures InputOk(b.(title := Num(n)), x)
    ensures BuildJob(b.(title := Num(n)), x, id, employer, now).title == IntegerText(n)
  {
    IntegerTextTrimmed(n);
  }

  /** The `skills` array as the schema stores it: every element cast to String and trimmed. */
  function TrimmedSkills(items: seq<Value>): (r: seq<string>)
    requires forall i :: 0 <= i < |items| ==> CastString(items[i]).Some?
    ensures |r| == |items|
    ensures forall i :: 0 <= i < |r| ==> r[i] == Trim(CastString(items[i]).value) && Trimmed(r[i])
  {
    seq(|items|, i requires 0 <= i < |items| => Trim(CastString(items[i]).value))
  }

  /** The three fields `createJob` requires before anything else. */
  predicate Present(b: CreateJobBody) {
    Truthy(b.title) && Truthy(b.description) && Truthy(b.category)
  }

  /**
   * `createJob`: title, description and category must be truthy; then the
   * employer is resolved (the demo employer, created when missing) and the
   * constructor fills county (Nairobi), exact location, amount (0), period
   * (day), negotiability, skills (split and trimmed when a string), an
   * urgency coerced to Boolean, status open and featured false. The
   * employer name and the contact numbers go to paths the schema does not
   * have and are dropped. Save validation failures list the failing paths;
   * a demo employer created before a failed save stays stored. `id` is the
   * fresh job ObjectId and `userId` the one a created employer gets.
   */
  function CreateJob(db: Db, b: CreateJobBody, id: Id, userId: Id, now: int, hash: string -> string): (r: (Db, Result<Job, JobError>))
    requires forall i :: 0 <= i < |db.jobs| ==> db.jobs[i].id != id
    requires forall i :: 0 <= i < |db.users| ==> db.users[i].id != userId
    ensures r.1 == Err(MissingRequiredFields) <==> !Present(b)
    ensures !Present(b) ==> r.0 == db
    ensures r.1.Ok? <==> Present(b) && SkillsOf(b.skills).Some? && InputOk(b, InputOf(b, SkillsOf(b.skills).value))
    ensures Present(b) && SkillsOf(b.skills).None? ==> r.1 == Err(ServerError)
    ensures Present(b) && SkillsOf(b.skills).Some? ==> var x := InputOf(b, SkillsOf(b.skills).value);
      !InputOk(b, x) ==> r.1 == Err(ValidationFailed(FailingPaths(b, x)))
    ensures Present(b) ==> r.0.users == ResolveEmployer(db, userId, now, hash).0.users
    ensures r.0.applications == db.applications
    ensures r.1.Err? ==> r.0.jobs == db.jobs
    ensures r.1.Ok? ==> r.0.jobs == db.jobs + [r.1.value]
    ensures r.1.Ok? ==> Carries(r.1.value, b, InputOf(b, SkillsOf(b.skills).value), id, ResolveEmployer(db, userId, now, hash).1, now)
    ensures r.1.Ok? && !Truthy(Get(b.salary, "period")) ==> r.1.value.salary.period == Day
    ensures r.1.Ok? && !Truthy(b.location) ==> r.1.value.location.county == "Nairobi"
    ensures r.1.Ok? && b.skills.Str? && b.skills.s != [] ==> r.1.value.skills == TrimEach(Split(b.skills.s, ','))
    ensures WellFormed(db) ==> WellFormed(r.0)
  {
    if !Present(b) then (db, Err(MissingRequiredFields))
    else
      var resolved := ResolveEmployer(db, userId, now, hash);
      match Construct(resolved.0, b, id, resolved.1, now)
        case Ok(saved) => (saved.0, Ok(saved.1))
        case Err(e) => (resolved.0, Err(e))
  }

  /** The constructor call and `save()` once the required fields are present and the employer resolved. */
  function Construct(db: Db, b: CreateJobBody, id: Id, employer: Id, now: int): (r: Result<(Db, Job), JobError>)
    requires forall i :: 0 <= i < |db.jobs| ==> db.jobs[i].id != id
    ensures r != Err(MissingRequiredFields)
    ensures r.Ok? <==> SkillsOf(b.skills).Some? && InputOk(b, InputOf(b, SkillsOf(b.skills).value))
    ensures SkillsOf(b.skills).None? ==> r == Err(ServerError)
    ensures SkillsOf(b.skills).Some? ==> var x := InputOf(b, SkillsOf(b.skills).value);
      !InputOk(b, x) ==> r == Err(ValidationFailed(FailingPaths(b, x)))
    ensures r.Ok? ==> r.value.0 == db.(jobs := db.jobs + [r.value.1])
    ensures r.Ok? ==> Carries(r.value.1, b, InputOf(b, SkillsOf(b.skills).value), id, employer, now)
    ensures r.Ok? && !Truthy(Get(b.salary, "period")) ==> r.value.1.salary.period == Day
    ensures r.Ok? && !Truthy(b.location) ==> r.value.1.location.county == "Nairobi"
    ensures r.Ok? && b.skills.Str? && b.skills.s != [] ==> r.value.1.skills == TrimEach(Split(b.skills.s, ','))
    ensures r.Ok? && WellFormed(db) ==> WellFormed(r.value.0)
  {
    match SkillsOf(b.skills)
      case None => Err(ServerError)
      case Some(skills) =>
        var x := InputOf(b, skills);
        if !InputOk(b, x) then Err(ValidationFailed(FailingPaths(b, x)))
        else
          var job := BuildJob(b, x, id, employer, now);
          FallbacksStored(b, x, job, id, employer, now);
          AppendJobKeepsWellFormed(db, job);
          Ok((db.(jobs := db.jobs + [job]), job))
  }

  /** Inserting a job under a fresh id keeps the indexes. */
  lemma AppendJobKeepsWellFormed(db: Db, job: Job)
    requires forall i :: 0 <= i < |db.jobs| ==> db.jobs[i].id != job.id
    ensures WellFormed(db) ==> WellFormed(db.(jobs := db.jobs + [job]))
  {
  }

  /** The stored job shows the `||` fallbacks: the day period, the Nairobi county, and a skills string split and trimmed. */
  lemma FallbacksStored(b: CreateJobBody, x: JobInput, job: Job, id: Id, employer: Id, now: int)
    requires SkillsOf(b.skills).Some? && x == InputOf(b, SkillsOf(b.skills).value)
    requires InputOk(b, x) && Carries(job, b, x, id, employer, now)
    ensures !Truthy(Get(b.salary, "period")) ==> job.salary.period == Day
    ensures !Truthy(b.location) ==> job.location.county == "Nairobi"
    ensures b.skills.Str? && b.skills.s != [] ==> job.skills == TrimEach(Split(b.skills.s, ','))
  {
    if !Truthy(Get(b.salary, "period")) {
      DayParses(x.period, job.salary.period);
    }
    SplitSkillsStored(b, x, job);
  }

  /** The fallback period `day` is parsed as the day period. */
  lemma DayParses(v: Value, p: SalaryPeriod)
    requires v == Str("day") && Some(p) == ParsedPeriod(v)
    ensures p == Day
  {
  }

  lemma SplitSkillsStored(b: CreateJobBody, x: JobInput, job: Job)
    requires SkillsOf(b.skills).Some? && x == InputOf(b, SkillsOf(b.skills).value)
    requires StringElements(x.skills) && |job.skills| == |x.skills.items|
    requires forall i :: 0 <= i < |job.skills| ==> job.skills[i] == Trim(CastString(x.skills.items[i]).value)
    ensures b.skills.Str? && b.skills.s != [] ==> job.skills == TrimEach(Split(b.skills.s, ','))
  {
    if b.skills.Str? && b.skills.s != [] {
      var split := Split(b.skills.s, ',');
      var parts := TrimEach(split);
      forall i | 0 <= i < |parts| ensures job.skills[i] == parts[i] {
        assert x.skills.items[i] == Str(Trim(split[i]));
        TrimIdempotent(split[i]);
      }
    }
  }

  /* ------------------------------------------------------------ counting */

  predicate IsOpen(j: Job) { j.status == Open }

  function CategoryOf(j: Job): Category { j.category }

  /** The open jobs, in stored order. */
  function OpenJobs(db: Db): (r: seq<Job>)
    ensures forall i :: 0 <= i < |r| ==> r[i].status == Open
  {
    Seqs.Filter(db.jobs, IsOpen)
  }

  /** The categories of the open jobs, one per job. */
  function OpenCategories(db: Db): (r: seq<Category>)
    ensures |r| == |OpenJobs(db)|
    ensures forall i :: 0 <= i < |r| ==> r[i] == OpenJobs(db)[i].category
  {
    var open := OpenJobs(db);
    seq(|open|, i requires 0 <= i < |open| => open[i].category)
  }

  /** The types of the open jobs, one per job. */
  function OpenTypes(db: Db): (r: seq<JobType>)
    ensures |r| == |OpenJobs(db)|
    ensures forall i :: 0 <= i < |r| ==> r[i] == OpenJobs(db)[i].jobType
  {
    var open := OpenJobs(db);
    seq(|open|, i requires 0 <= i < |open| => open[i].jobType)
  }

  /**
   * `getCategories` without the average salary: one entry per category of
   * an open job, counting its open jobs, largest count first.
   */
  function Categories(db: Db): (r: seq<Seqs.Entry<Category>>)
    ensures Seqs.DistinctKeys(r)
    ensures Seqs.SortedDesc(r, Seqs.EntryCount)
    ensures forall i :: 0 <= i < |r| ==> r[i].count == multiset(OpenCategories(db))[r[i].key] && r[i].count >= 1
    ensures forall i :: 0 <= i < |OpenJobs(db)| ==> OpenJobs(db)[i].category in Seqs.Keys(r)
    ensures Seqs.SumCounts(r) == |OpenJobs(db)|
  {
    var open, cats := OpenJobs(db), OpenCategories(db);
    var r := Seqs.Rank(cats);
    forall i | 0 <= i < |open| ensures open[i].category in Seqs.Keys(r) {
      assert cats[i] in Seqs.Keys(r);
    }
    r
  }

  /** The totals of the first aggregation; absent when no job is open. */
  datatype Totals = Totals(totalJobs: nat, totalViews: int, urgentJobs: nat)

  datatype JobStats = JobStats(
    totals: Option<Totals>,
    jobsByType: seq<Seqs.Entry<JobType>>,
    topCategories: seq<Seqs.Entry<Category>>)

  function Views(j: Job): int { j.views }

  predicate IsUrgent(j: Job) { j.isUrgent }

  /**
   * `getJobStats` without the average salary: totals over the open jobs
   * (absent when there is none, as spreading an empty aggregation adds
   * nothing), their counts per type, and the five largest categories.
   */
  function JobStatsOf(db: Db): (r: JobStats)
    ensures r.totals.None? <==> OpenJobs(db) == []
    ensures r.totals.Some? ==> r.totals.value.totalJobs == |OpenJobs(db)|
                               && r.totals.value.urgentJobs <= r.totals.value.totalJobs
    ensures r.totals.Some? ==> r.totals.value.urgentJobs == |Seqs.Filter(OpenJobs(db), IsUrgent)|
    ensures Seqs.DistinctKeys(r.jobsByType)
    ensures forall i :: 0 <= i < |r.jobsByType| ==> r.jobsByType[i].count == multiset(OpenTypes(db))[r.jobsByType[i].key]
    ensures forall i :: 0 <= i < |OpenJobs(db)| ==> OpenJobs(db)[i].jobType in Seqs.Keys(r.jobsByType)
    ensures Seqs.SumCounts(r.jobsByType) == |OpenJobs(db)|
    ensures |r.topCategories| <= 5 && Seqs.SortedDesc(r.topCategories, Seqs.EntryCount)
  {
    var open := OpenJobs(db);
    var urgent := Seqs.Filter(open, IsUrgent);
    var totals := if open == [] then None else Some(Totals(|open|, Seqs.Sum(open, Views), |urgent|));
    var byType := Seqs.Tally(OpenTypes(db));
    forall i | 0 <= i < |open| ensures open[i].jobType in Seqs.Keys(byType) {
      assert OpenTypes(db)[i] in Seqs.Keys(byType);
    }
    var categories := Categories(db);
    Seqs.TakeSorted(categories, 5, Seqs.EntryCount);
    JobStats(totals, byType, Seqs.Take(categories, 5))
  }

  /** The top categories are the first five entries of the category ranking. */
  lemma TopCategoriesLeadRanking(db: Db)
    ensures var top := JobStatsOf(db).topCategories;
      |top| == (if |Categories(db)| < 5 then |Categories(db)| else 5)
      && forall i :: 0 <= i < |top| ==> top[i] == Categories(db)[i]
  {
  }

  /** `charAt(0).toUpperCase() + slice(1)` of the category name. */
  function DisplayName(c: Category): (r: string)
    ensures |r| == |CategoryName(c)| && r[0] == UpperChar(CategoryName(c)[0])
    ensures r[1..] == CategoryName(c)[1..]
  {
    Capitalize(CategoryName(c))
  }
}
