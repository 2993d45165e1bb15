/**
 * The Job model (backend/models/jobs.js): its enumerations, the embedded
 * application entries, the schema defaults, the `formattedSalary` virtual
 * and the pre-save hook that re-derives `applicationsCount`.
 */
module JobSchema {
  import opened Wrappers
  import opened Text
  import opened Documents

  /* --------------------------------------------------------- enumerations */

  datatype JobType = FullTime | PartTime | Casual | Contract

  function JobTypeName(t: JobType): string {
    match t
    case FullTime => "full-time"
    case PartTime => "part-time"
    case Casual => "casual"
    case Contract => "contract"
  }

  /** The `type` enum: a string names a job type exactly when it is one of the four names. */
  function ParseJobType(s: string): (r: Option<JobType>)
    ensures r.Some? ==> JobTypeName(r.value) == s
    ensures r.None? ==> forall t: JobType :: JobTypeName(t) != s
  {
    if s == "full-time" then Some(FullTime)
    else if s == "part-time" then Some(PartTime)
    else if s == "casual" then Some(Casual)
    else if s == "contract" then Some(Contract)
    else None
  }

  datatype Category =
    | Construction | Plumbing | Electrical | Cleaning | Delivery
    | Domestic | Farming | Security | Driving | Other

  function CategoryName(c: Category): string {
    match c
    case Construction => "construction"
    case Plumbing => "plumbing"
    case Electrical => "electrical"
    case Cleaning => "cleaning"
    case Delivery => "delivery"
    case Domestic => "domestic"
    case Farming => "farming"
    case Security => "security"
    case Driving => "driving"
    case Other => "other"
  }

  /** The ten-value `category` enum. */
  function ParseCategory(s: string): (r: Option<Category>)
    ensures r.Some? ==> CategoryName(r.value) == s
    ensures r.None? ==> forall c: Category :: CategoryName(c) != s
  {
    if s == "construction" then Some(Construction)
    else if s == "plumbing" then Some(Plumbing)
    else if s == "electrical" then Some(Electrical)
    else if s == "cleaning" then Some(Cleaning)
    else if s == "delivery" then Some(Delivery)
    else if s == "domestic" then Some(Domestic)
    else if s == "farming" then Some(Farming)
    else if s == "security" then Some(Security)
    else if s == "driving" then Some(Driving)
    else if s == "other" then Some(Other)
    else None
  }

  datatype SalaryPeriod = Hour | Day | Week | Month | Project

  function PeriodName(p: SalaryPeriod): string {
    match p
    case Hour => "hour"
    case Day => "day"
    case Week => "week"
    case Month => "month"
    case Project => "project"
  }

  /** The `salary.period` enum. */
  function ParsePeriod(s: string): (r: Option<SalaryPeriod>)
    ensures r.Some? ==> PeriodName(r.value) == s
    ensures r.None? ==> forall p: SalaryPeriod :: PeriodName(p) != s
  {
    if s == "hour" then Some(Hour)
    else if s == "day" then Some(Day)
    else if s == "week" then Some(Week)
    else if s == "month" then Some(Month)
    else if s == "project" then Some(Project)
    else None
  }

  datatype JobStatus = Open | Closed | Filled | Cancelled

  function StatusName(s: JobStatus): string {
    match s
    case Open => "open"
    case Closed => "closed"
    case Filled => "filled"
    case Cancelled => "cancelled"
  }

  /** The `status` enum. */
  function ParseStatus(s: string): (r: Option<JobStatus>)
    ensures r.Some? ==> StatusName(r.value) == s
    ensures r.None? ==> forall t: JobStatus :: StatusName(t) != s
  {
    if s == "open" then Some(Open)
    else if s == "closed" then Some(Closed)
    else if s == "filled" then Some(Filled)
    else if s == "cancelled" then Some(Cancelled)
    else None
  }

  /** The application status enum, shared by embedded entries and Application documents. */
  datatype ApplicationStatus = Pending | Accepted | Rejected | Withdrawn

  function ApplicationStatusName(s: ApplicationStatus): string {
    match s
    case Pending => "pending"
    case Accepted => "accepted"
    case Rejected => "rejected"
    case Withdrawn => "withdrawn"
  }

  function ParseApplicationStatus(s: string): (r: Option<ApplicationStatus>)
    ensures r.Some? ==> ApplicationStatusName(r.value) == s
    ensures r.None? ==> forall t: ApplicationStatus :: ApplicationStatusName(t) != s
  {
    if s == "pending" then Some(Pending)
    else if s == "accepted" then Some(Accepted)
    else if s == "rejected" then Some(Rejected)
    else if s == "withdrawn" then Some(Withdrawn)
    else None
  }

  /** Each enumeration's names are pairwise distinct, so parsing a name gives back its value. */
  lemma EnumRoundTrips(t: JobType, c: Category, p: SalaryPeriod, s: JobStatus, a: ApplicationStatus)
    ensures ParseJobType(JobTypeName(t)) == Some(t)
    ensures ParseCategory(CategoryName(c)) == Some(c)
    ensures ParsePeriod(PeriodName(p)) == Some(p)
    ensures ParseStatus(StatusName(s)) == Some(s)
    ensures ParseApplicationStatus(ApplicationStatusName(a)) == Some(a)
  {
  }

  /* ------------------------------------------------------------ documents */

  datatype Salary = Salary(amount: real, currency: string, period: SalaryPeriod, isNegotiable: bool)

  datatype JobLocation = JobLocation(county: string, exactLocation: string)

  /** An entry of the embedded `applications` array. */
  datatype EmbeddedApplication = EmbeddedApplication(
    worker: Option<Id>,
    status: ApplicationStatus,
    appliedAt: int,
    coverMessage: Option<string>)

  /** A new embedded entry: status defaults to pending and appliedAt to the current time. */
  function NewEmbeddedApplication(worker: Option<Id>, coverMessage: Option<string>, now: int): (e: EmbeddedApplication)
    ensures e.status == Pending && e.appliedAt == now
    ensures e.worker == worker && e.coverMessage == coverMessage
  {
    EmbeddedApplication(worker, Pending, now, coverMessage)
  }

  /** A Job document; dates are integer milliseconds. */
  datatype Job = Job(
    id: Id,
    title: string,
    description: string,
    jobType: JobType,
    category: Category,
    skills: seq<string>,
    location: JobLocation,
    salary: Salary,
    isUrgent: bool,
    employer: Id,
    contactPhone: Option<string>,
    contactWhatsApp: Option<string>,
    status: JobStatus,
    applications: seq<EmbeddedApplication>,
    views: int,
    applicationsCount: int,
    featured: bool,
    createdAt: int)

  /**
   * The schema validators a saved job satisfies: a trimmed non-empty title,
   * a description and a county, a non-negative amount and trimmed skills.
   */
  predicate ValidJob(j: Job) {
    j.title != [] && Trimmed(j.title)
    && j.description != []
    && j.location.county != []
    && j.salary.amount >= 0.0
    && forall i :: 0 <= i < |j.skills| ==> Trimmed(j.skills[i])
  }

  /**
   * A job as the schema creates it: status open, currency KES, not
   * negotiable, not urgent, not featured, no views, no applications and a
   * count of zero, created now.
   */
  function NewJob(
    id: Id, title: string, description: string, jobType: JobType, category: Category,
    location: JobLocation, amount: real, period: SalaryPeriod, employer: Id, now: int): (j: Job)
    ensures j.status == Open && j.salary.currency == "KES" && !j.salary.isNegotiable
    ensures !j.isUrgent && !j.featured && j.views == 0
    ensures j.applications == [] && j.applicationsCount == 0
    ensures j.createdAt == now && j.skills == []
    ensures PreSave(j) == j
  {
    Job(id, title, description, jobType, category, [], location,
        Salary(amount, "KES", period, false), false, employer, None, None,
        Open, [], 0, 0, false, now)
  }

  /* ----------------------------------------------------------------- hooks */

  /** `pre('save')`: the stored count becomes the length of the embedded array. */
  function PreSave(j: Job): (r: Job)
    ensures r.applicationsCount == |j.applications|
    ensures r.(applicationsCount := j.applicationsCount) == j
  {
    j.(applicationsCount := |j.applications|)
  }

  /** Whatever count a job held before, saving it gives the same document; saving twice changes nothing more. */
  lemma PreSaveDiscardsCount(j: Job, c: int)
    ensures PreSave(j.(applicationsCount := c)) == PreSave(j)
    ensures PreSave(PreSave(j)) == PreSave(j)
  {
  }

  /* ------------------------------------------------------------- virtuals */

  /**
   * `formattedSalary`: "KSh <amount>" followed by "per <period>" unless the
   * period is `project`. `amountText` is the amount as `toLocaleString`
   * renders it.
   */
  function FormattedSalary(s: Salary, amountText: string): (r: string)
    ensures s.period != Project ==> r == "KSh " + amountText + " per " + PeriodName(s.period)
    ensures s.period == Project ==> r == Trim("KSh " + amountText)
  {
    var suffix := if s.period == Project then "" else "per " + PeriodName(s.period);
    SalaryTextTrim(s.period, amountText);
    Trim("KSh " + amountText + " " + suffix)
  }

  /** What trimming does to the `formattedSalary` template. */
  lemma SalaryTextTrim(p: SalaryPeriod, amountText: string)
    ensures p == Project ==> Trim("KSh " + amountText + " " + "") == Trim("KSh " + amountText)
    ensures p != Project ==> Trim("KSh " + amountText + " " + ("per " + PeriodName(p))) == "KSh " + amountText + " per " + PeriodName(p)
  {
    if p == Project {
      assert "KSh " + amountText + " " + "" == ("KSh " + amountText) + " ";
      TrimDropsTrailingSpace("KSh " + amountText);
    } else {
      var text := "KSh " + amountText + " " + ("per " + PeriodName(p));
      assert text == "KSh " + amountText + " per " + PeriodName(p);
      TrimOfUnpadded(text);
    }
  }

  /** An amount rendered with digits and separators: the project form ends with the amount, the others with the period. */
  lemma FormattedSalaryEndsWith(s: Salary, amountText: string)
    requires amountText != [] && forall i :: 0 <= i < |amountText| ==> IsDigit(amountText[i]) || amountText[i] in ",."
    ensures var r := FormattedSalary(s, amountText);
      if s.period == Project then r == "KSh " + amountText
      else r[|r| - |PeriodName(s.period)|..] == PeriodName(s.period)
  {
    if s.period == Project {
      var t := "KSh " + amountText;
      SpaceIsNotDigit(amountText[|amountText| - 1]);
      assert t[|t| - 1] == amountText[|amountText| - 1];
      TrimOfUnpadded(t);
    }
  }
}
