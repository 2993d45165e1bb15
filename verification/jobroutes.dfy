/**
 * The in-memory job routes the server actually mounts: a module-level
 * list of plain job objects, read and bumped in place by the handlers.
 * The list is passed in and the updated list handed back; the clock is
 * an integer millisecond timestamp.
 */
module JobRoutes {
  import opened Wrappers
  import opened Js
  import opened Text
  import Seqs

  /** Milliseconds in a day. */
  const DayMs := 86400000

  /**
   * A job of the list. `fields` are the properties the job was posted
   * with (spread from the request body); `id` and the four fields the
   * server sets itself are held apart, since they override the body.
   * `posted` is the UTC midnight, in milliseconds, of the posting day.
   */
  datatype DemoJob = DemoJob(
    id: Value,
    fields: map<string, Value>,
    posted: int,
    views: nat,
    applications: nat,
    urgent: bool)

  type Jobs = seq<DemoJob>

  /**
   * `RenderFailed` is the TypeError a handler throws while rendering a job,
   * which the server's error handler answers with 500.
   */
  datatype RouteError = NotFound | MissingRequiredFields | RenderFailed

  /* ------------------------------------------------------------- timeAgo */

  /** The buckets of `timeAgo`. */
  datatype Ago = Today | Yesterday | DaysAgo(days: int) | WeeksAgo(weeks: int) | MonthsAgo(months: int)

  /** `Math.floor(ms / day)`: the whole days between two instants. */
  function DiffDays(posted: int, now: int): (d: int)
    ensures DayMs * d <= now - posted < DayMs * d + DayMs
  {
    (now - posted) / DayMs
  }

  /** The bucket for a day difference; a negative difference falls into the days bucket. */
  function AgoOf(d: int): (r: Ago)
    ensures r == Today <==> d == 0
    ensures r == Yesterday <==> d == 1
    ensures r.DaysAgo? <==> d < 7 && d != 0 && d != 1
    ensures r.DaysAgo? ==> r.days == d
    ensures r.WeeksAgo? <==> 7 <= d < 30
    ensures r.WeeksAgo? ==> 1 <= r.weeks <= 4 && 7 * r.weeks <= d < 7 * r.weeks + 7
    ensures r.MonthsAgo? <==> 30 <= d
    ensures r.MonthsAgo? ==> 1 <= r.months && 30 * r.months <= d < 30 * r.months + 30
  {
    if d == 0 then Today
    else if d == 1 then Yesterday
    else if d < 7 then DaysAgo(d)
    else if d < 30 then WeeksAgo(d / 7)
    else MonthsAgo(d / 30)
  }

  /** A template-literal rendering of an integer. */
  function IntToString(n: int): (s: string)
    ensures n >= 0 ==> s == NatToString(n)
    ensures n < 0 ==> s == ['-'] + NatToString(-n)
  {
    if n < 0 then ['-'] + NatToString(-n) else NatToString(n)
  }

  function AgoText(a: Ago): string {
    match a
    case Today => "Today"
    case Yesterday => "Yesterday"
    case DaysAgo(d) => IntToString(d) + " days ago"
    case WeeksAgo(w) => IntToString(w) + " weeks ago"
    case MonthsAgo(m) => IntToString(m) + " months ago"
  }

  function TimeAgo(posted: int, now: int): string {
    AgoText(AgoOf(DiffDays(posted, now)))
  }

  /** A job posted on the day `now` falls in reads "Today", the day before "Yesterday". */
  lemma PostedDays(day: int, now: int)
    requires day * DayMs <= now < day * DayMs + DayMs
    ensures TimeAgo(day * DayMs, now) == "Today"
    ensures TimeAgo(day * DayMs - DayMs, now) == "Yesterday"
  {
    assert DiffDays(day * DayMs, now) == 0;
    assert DiffDays(day * DayMs - DayMs, now) == 1;
  }

  /* ------------------------------------------------------------- lookups */

  /** `j.id === n` for the number `n` of a route parameter; NaN matches nothing. */
  predicate HasId(j: DemoJob, n: Value) {
    n.Num? && j.id == n
  }

  /** `jobs.find(j => j.id === Number(param))`, as an index. */
  function Find(jobs: Jobs, param: string): (r: Option<nat>)
    ensures r.None? <==> forall i :: 0 <= i < |jobs| ==> !HasId(jobs[i], StringToNumber(param))
    ensures r.Some? ==> r.value < |jobs| && HasId(jobs[r.value], StringToNumber(param))
    ensures r.Some? ==> forall i :: 0 <= i < r.value ==> !HasId(jobs[i], StringToNumber(param))
  {
    var n := StringToNumber(param);
    var k := Seqs.FirstIndex(jobs, j => HasId(j, n));
    if k == |jobs| then None else Some(k)
  }

  /* ----------------------------------------------------------- rendering */

  /**
   * `salary.amount.toLocaleString()` can be evaluated: the amount read from
   * the salary is neither undefined nor null. A salary that is not an
   * object (`salary: 5000`) has no amount.
   */
  predicate AmountRenders(fields: map<string, Value>) {
    var amount := Get(Field(fields, "salary"), "amount");
    !amount.Undefined? && !amount.Null?
  }

  /** Every job of the list can be rendered. */
  predicate AllRender(jobs: Jobs) {
    forall i :: 0 <= i < |jobs| ==> AmountRenders(jobs[i].fields)
  }

  /**
   * GET /: every job rendered with its `postedAgo` and `formattedSalary`;
   * one job without a salary amount makes the whole listing throw.
   */
  function ListJobs(jobs: Jobs): (r: Result<Jobs, RouteError>)
    ensures r.Err? <==> exists i :: 0 <= i < |jobs| && !AmountRenders(jobs[i].fields)
    ensures r.Err? ==> r.error == RenderFailed
    ensures r.Ok? ==> r.value == jobs
  {
    if AllRender(jobs) then Ok(jobs) else Err(RenderFailed)
  }

  /**
   * GET /:id: the matching job's `views` is bumped in place, then the job
   * is rendered. The first component is the list after the request: the
   * bump stays even when the rendering throws.
   */
  function ViewJob(jobs: Jobs, param: string): (r: (Jobs, Result<DemoJob, RouteError>))
    ensures Find(jobs, param).None? ==> r == (jobs, Err(NotFound))
    ensures Find(jobs, param).Some? ==> var k := Find(jobs, param).value;
      && |r.0| == |jobs|
      && r.0[k].views == jobs[k].views + 1 && r.0[k].(views := jobs[k].views) == jobs[k]
      && (forall i :: 0 <= i < |jobs| && i != k ==> r.0[i] == jobs[i])
      && (r.1.Ok? <==> AmountRenders(jobs[k].fields))
      && (r.1.Ok? ==> r.1.value == r.0[k])
      && (r.1.Err? ==> r.1.error == RenderFailed)
  {
    match Find(jobs, param)
    case None => (jobs, Err(NotFound))
    case Some(k) =>
      var job := jobs[k].(views := jobs[k].views + 1);
      (jobs[k := job], if AmountRenders(job.fields) then Ok(job) else Err(RenderFailed))
  }

  /** POST /:id/apply: bumps the matching job's `applications`; nothing checks for repeats. */
  function Apply(jobs: Jobs, param: string): (r: Result<Jobs, RouteError>)
    ensures r.Err? <==> Find(jobs, param).None?
    ensures r.Err? ==> r.error == NotFound
    ensures r.Ok? ==> var k := Find(jobs, param).value;
      && |r.value| == |jobs|
      && r.value[k].applications == jobs[k].applications + 1
      && r.value[k].(applications := jobs[k].applications) == jobs[k]
      && forall i :: 0 <= i < |jobs| && i != k ==> r.value[i] == jobs[i]
  {
    match Find(jobs, param)
    case None => Err(NotFound)
    case Some(k) => Ok(jobs[k := jobs[k].(applications := jobs[k].applications + 1)])
  }

  /** Applying twice to the same job counts two applications. */
  lemma ApplyTwiceCountsTwice(jobs: Jobs, param: string)
    requires Find(jobs, param).Some?
    ensures Apply(jobs, param).Ok?
    ensures Apply(Apply(jobs, param).value, param).Ok?
    ensures var k := Find(jobs, param).value;
      Apply(Apply(jobs, param).value, param).value[k].applications == jobs[k].applications + 2
  {
    var k := Find(jobs, param).value;
    var once := Apply(jobs, param).value;
    assert forall i :: 0 <= i < |once| ==> HasId(once[i], StringToNumber(param)) == HasId(jobs[i], StringToNumber(param));
    assert Find(once, param) == Some(k);
  }

  /* ---------------------------------------------------------------- post */

  /** The seven body fields POST / insists on. */
  predicate HasRequiredFields(body: map<string, Value>) {
    && Truthy(Field(body, "title")) && Truthy(Field(body, "description"))
    && Truthy(Field(body, "type")) && Truthy(Field(body, "category"))
    && Truthy(Field(body, "location")) && Truthy(Field(body, "salary"))
    && Truthy(Field(body, "contactPhone"))
  }

  /** `Math.max(...jobs.map(j => j.id))`: NaN when any id does not convert to a number. */
  function MaxId(jobs: Jobs): (r: Value)
    requires jobs != []
    ensures r.Num? <==> forall i :: 0 <= i < |jobs| ==> ToNumber(jobs[i].id).Num?
    ensures !r.Num? ==> r == NotANumber
    ensures r.Num? ==> forall i :: 0 <= i < |jobs| ==> ToNumber(jobs[i].id).n <= r.n
    ensures r.Num? ==> exists i :: 0 <= i < |jobs| && ToNumber(jobs[i].id).n == r.n
  {
    var head := ToNumber(jobs[0].id);
    if |jobs| == 1 then head
    else
      var rest := MaxId(jobs[1..]);
      MaxIdStep(jobs, rest);
      if !head.Num? || !rest.Num? then NotANumber
      else Num(if head.n >= rest.n then head.n else rest.n)
  }

  /** The first id against the maximum of the others: `Math.max` of the two, NaN winning. */
  lemma MaxIdStep(jobs: Jobs, rest: Value)
    requires |jobs| > 1
    requires rest.Num? <==> forall i :: 0 <= i < |jobs| - 1 ==> ToNumber(jobs[1..][i].id).Num?
    requires rest.Num? ==> forall i :: 0 <= i < |jobs| - 1 ==> ToNumber(jobs[1..][i].id).n <= rest.n
    requires rest.Num? ==> exists i :: 0 <= i < |jobs| - 1 && ToNumber(jobs[1..][i].id).n == rest.n
    ensures var head := ToNumber(jobs[0].id);
      var r := if !head.Num? || !rest.Num? then NotANumber else Num(if head.n >= rest.n then head.n else rest.n);
      && (r.Num? <==> forall i :: 0 <= i < |jobs| ==> ToNumber(jobs[i].id).Num?)
      && (r.Num? ==> forall i :: 0 <= i < |jobs| ==> ToNumber(jobs[i].id).n <= r.n)
      && (r.Num? ==> exists i :: 0 <= i < |jobs| && ToNumber(jobs[i].id).n == r.n)
  {
    var head := ToNumber(jobs[0].id);
    assert forall i :: 1 <= i < |jobs| ==> jobs[i] == jobs[1..][i - 1];
    if head.Num? && rest.Num? {
      var j :| 0 <= j < |jobs| - 1 && ToNumber(jobs[1..][j].id).n == rest.n;
      assert ToNumber(jobs[j + 1].id).n == rest.n;
    }
  }

  /** The id a job posted without one gets: one past the largest, or 1 for an empty list. */
  function NextId(jobs: Jobs): (r: Value)
    ensures jobs == [] ==> r == Num(1.0)
    ensures r.Num? || r.NotANumber?
    ensures jobs != [] ==> (r.Num? <==> forall i :: 0 <= i < |jobs| ==> ToNumber(jobs[i].id).Num?)
  {
    if jobs == [] then Num(1.0)
    else
      var m := MaxId(jobs);
      if m.Num? then Num(m.n + 1.0) else NotANumber
  }

  /** A numeric next id exceeds every id by at least one, so no existing job carries it. */
  lemma NextIdFresh(jobs: Jobs)
    requires NextId(jobs).Num?
    ensures forall i :: 0 <= i < |jobs| ==> ToNumber(jobs[i].id).n + 1.0 <= NextId(jobs).n
    ensures forall i :: 0 <= i < |jobs| ==> jobs[i].id != NextId(jobs)
  {
    if jobs != [] {
      var m := MaxId(jobs);
      forall i | 0 <= i < |jobs| ensures jobs[i].id != NextId(jobs) {
        assert ToNumber(jobs[i].id).n <= m.n;
      }
    }
  }

  /** The job POST / appends for a body: the body's id or the next one, today's date, no counts. */
  function Posted(jobs: Jobs, body: map<string, Value>, now: int): (job: DemoJob)
    ensures job.fields == body
    ensures job.views == 0 && job.applications == 0 && !job.urgent
    ensures job.posted % DayMs == 0 && job.posted <= now < job.posted + DayMs
    ensures "id" in body ==> job.id == body["id"]
    ensures "id" !in body ==> job.id == NextId(jobs)
  {
    var id := if "id" in body then body["id"] else NextId(jobs);
    DemoJob(id, body, (now / DayMs) * DayMs, 0, 0, false)
  }

  /**
   * POST / as written: the seven fields must be truthy, and nothing looks
   * inside the salary, so `salary: 5000` is stored.
   */
  function PostJobAsWritten(jobs: Jobs, body: map<string, Value>, now: int): (r: Result<(Jobs, DemoJob), RouteError>)
    ensures r.Err? <==> !HasRequiredFields(body)
    ensures r.Err? ==> r.error == MissingRequiredFields
    ensures r.Ok? ==> r.value == (jobs + [Posted(jobs, body, now)], Posted(jobs, body, now))
  {
    if !HasRequiredFields(body) then Err(MissingRequiredFields)
    else
      var job := Posted(jobs, body, now);
      Ok((jobs + [job], job))
  }

  /**
   * As written, one posted salary without an amount breaks GET / for every
   * caller and GET /:id for that job, each answering 500.
   */
  lemma AmountlessSalaryBreaksReads(jobs: Jobs, body: map<string, Value>, now: int, param: string)
    requires HasRequiredFields(body) && !AmountRenders(body) && "id" !in body
    requires NextId(jobs).Num? && StringToNumber(param) == NextId(jobs)
    ensures PostJobAsWritten(jobs, body, now).Ok?
    ensures var after := PostJobAsWritten(jobs, body, now).value.0;
      ListJobs(after) == Err(RenderFailed) && ViewJob(after, param).1 == Err(RenderFailed)
  {
    var after := PostJobAsWritten(jobs, body, now).value.0;
    assert after[|jobs|].fields == body;
    PostedIsFound(jobs, body, now, param, after);
  }

  /** The concrete case: a body with `salary: 5000` posted into an empty list, then GET /api/jobs/1. */
  lemma NumericSalaryBreaksReads(body: map<string, Value>, now: int)
    requires HasRequiredFields(body) && "id" !in body && body["salary"] == Num(5000.0)
    ensures PostJobAsWritten([], body, now).Ok?
    ensures var after := PostJobAsWritten([], body, now).value.0;
      ListJobs(after) == Err(RenderFailed) && ViewJob(after, NatToString(1)).1 == Err(RenderFailed)
  {
    var one := NatToString(1);
    NatToStringReadsBack(1);
    assert StringToNumber(one) == NextId([]);
    assert !AmountRenders(body) by {
      assert Field(body, "salary") == Num(5000.0);
    }
    AmountlessSalaryBreaksReads([], body, now, one);
  }

  /**
   * POST / with the salary's amount required too, as every reader of the
   * list evidently expects: a body whose salary has no amount is refused
   * like one missing a field, so every posted job renders.
   */
  function PostJob(jobs: Jobs, body: map<string, Value>, now: int): (r: Result<(Jobs, DemoJob), RouteError>)
    ensures r.Err? <==> !HasRequiredFields(body) || !AmountRenders(body)
    ensures r.Err? ==> r.error == MissingRequiredFields
    ensures r.Ok? ==> var (after, job) := r.value;
      && after == jobs + [job]
      && job.fields == body && AmountRenders(job.fields)
      && job.views == 0 && job.applications == 0 && !job.urgent
      && job.posted % DayMs == 0 && job.posted <= now < job.posted + DayMs
    ensures r.Ok? && "id" in body ==> r.value.1.id == body["id"]
    ensures r.Ok? && "id" !in body ==> r.value.1.id == NextId(jobs)
  {
    if !HasRequiredFields(body) || !AmountRenders(body) then Err(MissingRequiredFields)
    else
      var job := Posted(jobs, body, now);
      Ok((jobs + [job], job))
  }

  /**
   * A list whose jobs all render keeps rendering through a view or an
   * application, and a view then fails only for an unknown id.
   */
  lemma ReadsKeepWorking(jobs: Jobs, param: string)
    requires AllRender(jobs)
    ensures ListJobs(jobs) == Ok(jobs)
    ensures ViewJob(jobs, param).1.Err? <==> Find(jobs, param).None?
    ensures AllRender(ViewJob(jobs, param).0)
    ensures Apply(jobs, param).Ok? ==> AllRender(Apply(jobs, param).value)
  {
    if Find(jobs, param).Some? {
      FieldsKeepRendering(jobs, ViewJob(jobs, param).0);
      FieldsKeepRendering(jobs, Apply(jobs, param).value);
    }
  }

  /** With the corrected POST, every job of a list that renders still renders after a post. */
  lemma PostKeepsRendering(jobs: Jobs, body: map<string, Value>, now: int)
    requires AllRender(jobs)
    ensures PostJob(jobs, body, now).Ok? ==> AllRender(PostJob(jobs, body, now).value.0)
  {
    if PostJob(jobs, body, now).Ok? {
      var after := PostJob(jobs, body, now).value.0;
      FieldsKeepRendering(jobs, after[..|jobs|]);
      assert after == after[..|jobs|] + [after[|jobs|]];
    }
  }

  /** Jobs with the same fields as a list that renders render too. */
  lemma FieldsKeepRendering(jobs: Jobs, after: Jobs)
    requires AllRender(jobs) && |after| == |jobs|
    requires forall i :: 0 <= i < |jobs| ==> after[i].fields == jobs[i].fields
    ensures AllRender(after)
  {
  }

  /** A job appended under the next id is the one that id finds. */
  lemma PostedIsFound(jobs: Jobs, body: map<string, Value>, now: int, param: string, after: Jobs)
    requires "id" !in body && NextId(jobs).Num? && StringToNumber(param) == NextId(jobs)
    requires after == jobs + [Posted(jobs, body, now)]
    ensures Find(after, param) == Some(|jobs|)
  {
    NextIdFresh(jobs);
    var n := StringToNumber(param);
    forall i | 0 <= i < |jobs| ensures !HasId(after[i], n) {
      assert after[i] == jobs[i];
    }
    assert HasId(after[|jobs|], n);
  }

  /** A job posted without an id, into a list of numeric ids, is the one its id now finds. */
  lemma PostedJobFound(jobs: Jobs, body: map<string, Value>, now: int, param: string)
    requires HasRequiredFields(body) && AmountRenders(body) && "id" !in body
    requires NextId(jobs).Num? && StringToNumber(param) == NextId(jobs)
    ensures PostJob(jobs, body, now).Ok?
    ensures var after := PostJob(jobs, body, now).value.0; Find(after, param) == Some(|jobs|)
  {
    PostedIsFound(jobs, body, now, param, PostJob(jobs, body, now).value.0);
  }

  /* ----------------------------------------------------- stats, featured */

  function Views(j: DemoJob): int { j.views }
  function Applications(j: DemoJob): int { j.applications }
  predicate IsUrgent(j: DemoJob) { j.urgent }

  datatype RouteStats = RouteStats(totalJobs: nat, totalViews: int, totalApplications: int, urgentJobs: nat)

  /** GET /stats. */
  function Stats(jobs: Jobs): (r: RouteStats)
    ensures r.totalJobs == |jobs| && r.urgentJobs <= r.totalJobs
    ensures r.totalViews >= 0 && r.totalApplications >= 0
    ensures r.urgentJobs == |Seqs.Filter(jobs, IsUrgent)|
    ensures r.totalViews == Seqs.Sum(jobs, Views) && r.totalApplications == Seqs.Sum(jobs, Applications)
  {
    Seqs.SumNonNegative(jobs, Views);
    Seqs.SumNonNegative(jobs, Applications);
    RouteStats(|jobs|, Seqs.Sum(jobs, Views), Seqs.Sum(jobs, Applications), |Seqs.Filter(jobs, IsUrgent)|)
  }

  /** Replacing one job by another just as urgent moves the totals by the difference. */
  lemma StatsOfUpdate(jobs: Jobs, k: nat, job: DemoJob)
    requires k < |jobs| && job.urgent == jobs[k].urgent
    ensures var s := Stats(jobs);
      Stats(jobs[k := job]) == s.(totalViews := s.totalViews - jobs[k].views + job.views,
                                  totalApplications := s.totalApplications - jobs[k].applications + job.applications)
  {
    Seqs.SumUpdate(jobs, k, job, Views);
    Seqs.SumUpdate(jobs, k, job, Applications);
    Seqs.FilterLengthUpdate(jobs, k, job, IsUrgent);
  }

  /** Viewing a job adds exactly one to the total views and changes no other statistic. */
  lemma ViewBumpsTotalViews(jobs: Jobs, param: string)
    requires Find(jobs, param).Some?
    ensures var s, t := Stats(jobs), Stats(ViewJob(jobs, param).0);
      t == s.(totalViews := s.totalViews + 1)
  {
    var k := Find(jobs, param).value;
    var job := jobs[k].(views := jobs[k].views + 1);
    StatsOfUpdate(jobs, k, job);
  }

  /** Applying adds exactly one to the total applications and changes no other statistic. */
  lemma ApplyBumpsTotalApplications(jobs: Jobs, param: string)
    requires Apply(jobs, param).Ok?
    ensures var s, t := Stats(jobs), Stats(Apply(jobs, param).value);
      t == s.(totalApplications := s.totalApplications + 1)
  {
    var k := Find(jobs, param).value;
    var job := jobs[k].(applications := jobs[k].applications + 1);
    StatsOfUpdate(jobs, k, job);
  }

  /** Posting adds one job and no views, applications or urgent jobs. */
  lemma PostAddsOneJob(jobs: Jobs, body: map<string, Value>, now: int)
    requires PostJob(jobs, body, now).Ok?
    ensures var s, t := Stats(jobs), Stats(PostJob(jobs, body, now).value.0);
      t == s.(totalJobs := s.totalJobs + 1)
  {
    var job := PostJob(jobs, body, now).value.1;
    Seqs.SumSnoc(jobs, job, Views);
    Seqs.SumSnoc(jobs, job, Applications);
    Seqs.FilterAppend(jobs, [job], IsUrgent);
    Seqs.FilterCons([job], IsUrgent);
  }

  /** GET /featured: the first three urgent jobs, in list order. */
  function Featured(jobs: Jobs): (r: Jobs)
    ensures |r| <= 3
    ensures forall i :: 0 <= i < |r| ==> r[i].urgent
    ensures |r| <= |Seqs.Filter(jobs, IsUrgent)| && r == Seqs.Filter(jobs, IsUrgent)[..|r|]
    ensures |r| == 3 || r == Seqs.Filter(jobs, IsUrgent)
    ensures multiset(r) <= multiset(jobs)
  {
    var urgent := Seqs.Filter(jobs, IsUrgent);
    Seqs.FilteredFrom(jobs, IsUrgent);
    Seqs.TakeMultiset(urgent, 3);
    Seqs.Take(urgent, 3)
  }

  /* ---------------------------------------------------------- categories */

  /**
   * `String(v)` as the engine turns a value into a property key;
   * `numberText` is the engine's number-to-string conversion.
   */
  function KeyOf(v: Value, numberText: real -> string): string
    decreases v
  {
    match v
    case Undefined => "undefined"
    case Null => "null"
    case Bool(b) => if b then "true" else "false"
    case Num(n) => numberText(n)
    case NotANumber => "NaN"
    case Str(s) => s
    case Arr(items) =>
      // `Array.prototype.join(',')`: null and undefined items render empty
      Join(seq(|items|, i requires 0 <= i < |items| =>
             if items[i].Undefined? || items[i].Null? then "" else KeyOf(items[i], numberText)), ',')
    case Obj(_) => "[object Object]"
  }

  /** The category key of every job, in list order. */
  function CategoryKeys(jobs: Jobs, numberText: real -> string): (ks: seq<string>)
    ensures |ks| == |jobs|
    ensures forall i :: 0 <= i < |jobs| ==> ks[i] == KeyOf(Field(jobs[i].fields, "category"), numberText)
  {
    seq(|jobs|, i requires 0 <= i < |jobs| => KeyOf(Field(jobs[i].fields, "category"), numberText))
  }

  datatype CategoryCount = CategoryCount(name: string, count: nat, displayName: string)

  function CountOf(c: CategoryCount): int { c.count }

  /** The `{ name, count, displayName }` rows of a frequency table. */
  function Rows(t: seq<Seqs.Entry<string>>): (r: seq<CategoryCount>)
    ensures |r| == |t|
    ensures forall i :: 0 <= i < |t| ==> r[i].name == t[i].key && r[i].count == t[i].count
    ensures forall i :: 0 <= i < |t| ==> r[i].displayName == Capitalize(t[i].key)
    ensures Seqs.Sum(r, CountOf) == Seqs.SumCounts(t)
  {
    if t == [] then []
    else
      var r := [CategoryCount(t[0].key, t[0].count, Capitalize(t[0].key))] + Rows(t[1..]);
      assert r[1..] == Rows(t[1..]);
      r
  }

  /**
   * GET /categories: one row per distinct category in order of first
   * appearance, counting its jobs, with the first letter upper-cased.
   */
  function Categories(jobs: Jobs, numberText: real -> string): (r: seq<CategoryCount>)
    ensures forall i, j :: 0 <= i < j < |r| ==> r[i].name != r[j].name
    ensures forall i :: 0 <= i < |r| ==>
      r[i].count == multiset(CategoryKeys(jobs, numberText))[r[i].name] && r[i].count >= 1
    ensures forall i :: 0 <= i < |jobs| ==> HasRow(r, KeyOf(Field(jobs[i].fields, "category"), numberText))
    ensures forall i, j :: 0 <= i < j < |r| ==>
      Seqs.Position(CategoryKeys(jobs, numberText), r[i].name) < Seqs.Position(CategoryKeys(jobs, numberText), r[j].name)
    ensures Seqs.Sum(r, CountOf) == |jobs|
    ensures forall i :: 0 <= i < |r| ==> |r[i].displayName| == |r[i].name|
    ensures forall i :: 0 <= i < |r| && r[i].name != [] ==>
      r[i].displayName[0] == UpperChar(r[i].name[0]) && r[i].displayName[1..] == r[i].name[1..]
  {
    var ks := CategoryKeys(jobs, numberText);
    var t := Seqs.Tally(ks);
    Seqs.TallyCountsPositive(ks);
    var r := Rows(t);
    RowsCover(ks, t, r);
    RowsInOrder(ks, t, r);
    r
  }

  /** Rows named after a tally's keys keep their order of first occurrence. */
  lemma RowsInOrder(ks: seq<string>, t: seq<Seqs.Entry<string>>, r: seq<CategoryCount>)
    requires forall i, j :: 0 <= i < j < |t| ==> Seqs.Position(ks, t[i].key) < Seqs.Position(ks, t[j].key)
    requires |r| == |t| && forall i :: 0 <= i < |t| ==> r[i].name == t[i].key
    ensures forall i, j :: 0 <= i < j < |r| ==> Seqs.Position(ks, r[i].name) < Seqs.Position(ks, r[j].name)
  {
  }

  /** Some row of `r` is named `name`. */
  predicate HasRow(r: seq<CategoryCount>, name: string) {
    exists j :: 0 <= j < |r| && r[j].name == name
  }

  /** Every key of a tally has a row. */
  lemma RowsCover(ks: seq<string>, t: seq<Seqs.Entry<string>>, r: seq<CategoryCount>)
    requires forall i :: 0 <= i < |ks| ==> ks[i] in Seqs.Keys(t)
    requires |r| == |t| && forall i :: 0 <= i < |t| ==> r[i].name == t[i].key
    ensures forall i :: 0 <= i < |ks| ==> HasRow(r, ks[i])
  {
    forall i | 0 <= i < |ks| ensures HasRow(r, ks[i]) {
      assert ks[i] in Seqs.Keys(t);
      var j :| 0 <= j < |t| && Seqs.Keys(t)[j] == ks[i];
      assert Seqs.Keys(t)[j] == t[j].key;
      assert r[j].name == ks[i];
    }
  }

  /** Replacing a job by one posted with the same fields keeps the category keys. */
  lemma CategoryKeysOfUpdate(jobs: Jobs, k: nat, job: DemoJob, numberText: real -> string)
    requires k < |jobs| && job.fields == jobs[k].fields
    ensures CategoryKeys(jobs[k := job], numberText) == CategoryKeys(jobs, numberText)
  {
  }

  /** Viewing or applying leaves the category table alone. */
  lemma BumpsKeepCategories(jobs: Jobs, param: string, numberText: real -> string)
    requires Find(jobs, param).Some?
    ensures Categories(ViewJob(jobs, param).0, numberText) == Categories(jobs, numberText)
    ensures Categories(Apply(jobs, param).value, numberText) == Categories(jobs, numberText)
  {
    var k := Find(jobs, param).value;
    var viewed, applied := jobs[k].(views := jobs[k].views + 1), jobs[k].(applications := jobs[k].applications + 1);
    assert ViewJob(jobs, param).0 == jobs[k := viewed];
    assert Apply(jobs, param).value == jobs[k := applied];
    CategoryKeysOfUpdate(jobs, k, viewed, numberText);
    CategoryKeysOfUpdate(jobs, k, applied, numberText);
  }
}
