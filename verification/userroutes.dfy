/**
 * The in-memory user routes: a fixed list of workers and employers,
 * filtered, counted and looked up by the handlers; adding a review bumps
 * a user's review count in place. The list is passed in and the updated
 * list handed back.
 */
module UserRoutes {
  import opened Wrappers
  import opened Js
  import opened Text
  import Seqs

  /** A user's verification flags. */
  datatype Flags = Flags(phone: bool, id: bool, email: bool)

  /**
   * A user of the list: the fields the handlers read, typed, and the
   * rest of the record (email, bio, links and so on) in `rest`. Ratings
   * are in tenths of a star. Employers carry no skills; no handler reads
   * an employer's skills, so they are held as the empty list.
   */
  datatype DemoUser = DemoUser(
    id: int,
    userType: string,
    name: string,
    location: string,
    skills: seq<string>,
    rating: int,
    totalReviews: nat,
    isVerified: Flags,
    rest: map<string, Value>)

  type Users = seq<DemoUser>

  datatype UserError = NotFound | InvalidReview

  predicate IsWorker(u: DemoUser) { u.userType == "worker" }
  predicate IsEmployer(u: DemoUser) { u.userType == "employer" }

  /** `formatUser`: the record without its email. */
  function FormatUser(u: DemoUser): (r: DemoUser)
    ensures "email" !in r.rest
    ensures forall k :: k in r.rest <==> k in u.rest && k != "email"
    ensures forall k :: k in r.rest ==> r.rest[k] == u.rest[k]
    ensures r.(rest := u.rest) == u
  {
    u.(rest := u.rest - {"email"})
  }

  function FormatAll(us: Users): (r: Users)
    ensures |r| == |us|
    ensures forall i :: 0 <= i < |us| ==> r[i] == FormatUser(us[i])
  {
    seq(|us|, i requires 0 <= i < |us| => FormatUser(us[i]))
  }

  /* ------------------------------------------------------------ the list */

  /** The query string of GET /; an absent or empty parameter does not filter. */
  datatype Query = Query(
    userType: Option<string>,
    location: Option<string>,
    skills: Option<string>,
    minRating: Option<string>,
    search: Option<string>)

  /** A query parameter is truthy. */
  predicate Given(p: Option<string>) { p.Some? && p.value != [] }

  /** `skills.split(',').map(s => s.trim().toLowerCase())`. */
  function RequiredSkills(skills: string): (r: seq<string>)
    ensures |r| == |Split(skills, ',')| == Occurrences(skills, ',') + 1
    ensures forall i :: 0 <= i < |r| ==> Trim(r[i]) == r[i] && ToLower(r[i]) == r[i] && ',' !in r[i]
    ensures forall i :: 0 <= i < |r| ==> r[i] == ToLower(Trim(Split(skills, ',')[i]))
  {
    var parts := Split(skills, ',');
    SplitCount(skills, ',');
    var r := seq(|parts|, i requires 0 <= i < |parts| => ToLower(Trim(parts[i])));
    assert forall i :: 0 <= i < |parts| ==> r[i] == ToLower(Trim(parts[i]));
    LowerTrimmedAll(parts);
    r
  }

  lemma LowerTrimmedAll(parts: seq<string>)
    requires forall i :: 0 <= i < |parts| ==> ',' !in parts[i]
    ensures forall i :: 0 <= i < |parts| ==>
      var r := ToLower(Trim(parts[i])); Trim(r) == r && ToLower(r) == r && ',' !in r
  {
    forall i | 0 <= i < |parts| ensures var r := ToLower(Trim(parts[i])); Trim(r) == r && ToLower(r) == r && ',' !in r {
      LowerTrimmedPart(parts[i], ',');
    }
  }

  /** A trimmed, lower-cased part is its own trim and its own lower case, and brings in no separator `c`. */
  lemma LowerTrimmedPart(part: string, c: char)
    requires !('A' <= c <= 'Z') && !('a' <= c <= 'z') && c !in part
    ensures var r := ToLower(Trim(part)); Trim(r) == r && ToLower(r) == r && c !in r
  {
    var t := Trim(part);
    var r := ToLower(t);
    LowerKeepsTrimmed(t);
    TrimmedIsOwnTrim(r);
    LowerCaseIsOwnLower(r);
    TrimKeepsOut(part, c);
    LowerKeepsOut(t, c);
  }

  /** `user.skills.map(s => s.toLowerCase()).includes(skill)`. */
  predicate HasSkill(u: DemoUser, skill: string) {
    exists i :: 0 <= i < |u.skills| && ToLower(u.skills[i]) == skill
  }

  /** The user-type filter: the lower-cased parameter, compared exactly. */
  predicate TypeMatches(q: Query, u: DemoUser) {
    Given(q.userType) ==> u.userType == ToLower(q.userType.value)
  }

  /** The location filter: a case-insensitive substring match. */
  predicate LocationMatches(q: Query, u: DemoUser) {
    Given(q.location) ==> Contains(ToLower(u.location), ToLower(q.location.value))
  }

  /** The skills filter applies only when the raw user type is exactly "worker". */
  predicate SkillsApply(q: Query) {
    Given(q.skills) && q.userType == Some("worker")
  }

  predicate SkillsMatch(q: Query, u: DemoUser) {
    SkillsApply(q) ==> forall s :: s in RequiredSkills(q.skills.value) ==> HasSkill(u, s)
  }

  /** `user.rating >= parseFloat(minRating)`: a threshold that is not a number keeps no one. */
  predicate RatingMatches(q: Query, u: DemoUser) {
    Given(q.minRating) ==>
      var t := ParseFloat(q.minRating.value);
      t.Num? && (u.rating as real) / 10.0 >= t.n
  }

  /** The name search: a case-insensitive substring match. */
  predicate NameMatches(q: Query, u: DemoUser) {
    Given(q.search) ==> Contains(ToLower(u.name), ToLower(q.search.value))
  }

  /** The first two, three and four conditions. */
  predicate Upto2(q: Query, u: DemoUser) { TypeMatches(q, u) && LocationMatches(q, u) }
  predicate Upto3(q: Query, u: DemoUser) { Upto2(q, u) && SkillsMatch(q, u) }
  predicate Upto4(q: Query, u: DemoUser) { Upto3(q, u) && RatingMatches(q, u) }

  /** Everything GET / asks of a user, as one condition. */
  predicate Keeps(q: Query, u: DemoUser) {
    Upto4(q, u) && NameMatches(q, u)
  }

  /* The five filters, applied one after another as the handler does. */

  function ByType(users: Users, q: Query): Users {
    if Given(q.userType) then Seqs.Filter(users, u => TypeMatches(q, u)) else users
  }

  function ByLocation(users: Users, q: Query): Users {
    var s := ByType(users, q);
    if Given(q.location) then Seqs.Filter(s, u => LocationMatches(q, u)) else s
  }

  function BySkills(users: Users, q: Query): Users {
    var s := ByLocation(users, q);
    if SkillsApply(q) then Seqs.Filter(s, u => SkillsMatch(q, u)) else s
  }

  function ByRating(users: Users, q: Query): Users {
    var s := BySkills(users, q);
    if Given(q.minRating) then Seqs.Filter(s, u => RatingMatches(q, u)) else s
  }

  function Pipeline(users: Users, q: Query): Users {
    var s := ByRating(users, q);
    if Given(q.search) then Seqs.Filter(s, u => NameMatches(q, u)) else s
  }

  lemma ByTypeIsFilter(users: Users, q: Query)
    ensures ByType(users, q) == Seqs.Filter(users, u => TypeMatches(q, u))
  {
    Seqs.GuardedFilter(users, Given(q.userType), u => TypeMatches(q, u));
  }

  lemma ByLocationIsFilter(users: Users, q: Query)
    ensures ByLocation(users, q) == Seqs.Filter(users, u => Upto2(q, u))
  {
    ByTypeIsFilter(users, q);
    var s := Seqs.Filter(users, u => TypeMatches(q, u));
    Seqs.GuardedFilter(s, Given(q.location), u => LocationMatches(q, u));
    Seqs.FilterThen(users, u => TypeMatches(q, u), u => LocationMatches(q, u), u => Upto2(q, u));
  }

  lemma BySkillsIsFilter(users: Users, q: Query)
    ensures BySkills(users, q) == Seqs.Filter(users, u => Upto3(q, u))
  {
    ByLocationIsFilter(users, q);
    var s := Seqs.Filter(users, u => Upto2(q, u));
    Seqs.GuardedFilter(s, SkillsApply(q), u => SkillsMatch(q, u));
    Seqs.FilterThen(users, u => Upto2(q, u), u => SkillsMatch(q, u), u => Upto3(q, u));
  }

  lemma ByRatingIsFilter(users: Users, q: Query)
    ensures ByRating(users, q) == Seqs.Filter(users, u => Upto4(q, u))
  {
    BySkillsIsFilter(users, q);
    var s := Seqs.Filter(users, u => Upto3(q, u));
    Seqs.GuardedFilter(s, Given(q.minRating), u => RatingMatches(q, u));
    Seqs.FilterThen(users, u => Upto3(q, u), u => RatingMatches(q, u), u => Upto4(q, u));
  }

  /**
   * The sequence of filters is one filter on the conjunction: the list
   * only loses users, keeps its order, and keeps exactly those satisfying
   * every given condition.
   */
  lemma PipelineIsOneFilter(users: Users, q: Query)
    ensures Pipeline(users, q) == Seqs.Filter(users, u => Keeps(q, u))
  {
    ByRatingIsFilter(users, q);
    var s := Seqs.Filter(users, u => Upto4(q, u));
    Seqs.GuardedFilter(s, Given(q.search), u => NameMatches(q, u));
    Seqs.FilterThen(users, u => Upto4(q, u), u => NameMatches(q, u), u => Keeps(q, u));
  }

  datatype UserList = UserList(count: nat, total: nat, users: Users)

  /** GET /. */
  function ListUsers(users: Users, q: Query): (r: UserList)
    ensures r.total == |users| && r.count == |r.users| <= r.total
    ensures r.users == FormatAll(Seqs.Filter(users, u => Keeps(q, u)))
  {
    var kept := Pipeline(users, q);
    PipelineIsOneFilter(users, q);
    UserList(|kept|, |users|, FormatAll(kept))
  }

  /** GET /workers. */
  function Workers(users: Users): (r: Users)
    ensures forall i :: 0 <= i < |r| ==> IsWorker(r[i]) && "email" !in r[i].rest
    ensures r == FormatAll(Seqs.Filter(users, IsWorker))
  {
    FormatAll(Seqs.Filter(users, IsWorker))
  }

  /** GET /employers. */
  function Employers(users: Users): (r: Users)
    ensures forall i :: 0 <= i < |r| ==> IsEmployer(r[i]) && "email" !in r[i].rest
    ensures r == FormatAll(Seqs.Filter(users, IsEmployer))
  {
    FormatAll(Seqs.Filter(users, IsEmployer))
  }

  /** No user is both, so the two lists hold no more users than there are. */
  lemma WorkersAndEmployersDisjoint(users: Users)
    ensures |Workers(users)| + |Employers(users)| <= |users|
  {
    Seqs.FilterDisjoint(users, IsWorker, IsEmployer);
  }

  /* -------------------------------------------------------------- detail */

  /** `u.id === parseInt(param)`; NaN matches nothing. */
  predicate HasId(u: DemoUser, n: Value) {
    n.Num? && n.n == u.id as real
  }

  /** `users.find(u => u.id === parseInt(param))`, as an index. */
  function Find(users: Users, param: string): (r: Option<nat>)
    ensures r.None? <==> forall i :: 0 <= i < |users| ==> !HasId(users[i], ParseInt(param))
    ensures r.Some? ==> r.value < |users| && HasId(users[r.value], ParseInt(param))
    ensures r.Some? ==> forall i :: 0 <= i < r.value ==> !HasId(users[i], ParseInt(param))
  {
    var n := ParseInt(param);
    var k := Seqs.FirstIndex(users, u => HasId(u, n));
    if k == |users| then None else Some(k)
  }

  /** A sample review of the detail page. */
  datatype Review = Review(id: nat, reviewerName: string, rating: nat)

  const DetailReviews: seq<Review> := [Review(1, "Jane Muthoni", 5), Review(2, "Robert Kimani", 4)]

  datatype Detail = Detail(user: DemoUser, reviews: seq<Review>, totalJobsCompleted: nat)

  /** GET /:id: the user without email, sample reviews for workers, and a demo job count. */
  function UserDetail(users: Users, param: string): (r: Result<Detail, UserError>)
    ensures r.Err? <==> Find(users, param).None?
    ensures r.Err? ==> r.error == NotFound
    ensures r.Ok? ==> var u := users[Find(users, param).value];
      && r.value.user == FormatUser(u)
      && |r.value.reviews| <= u.totalReviews && |r.value.reviews| <= |DetailReviews|
      && (!IsWorker(u) ==> r.value.reviews == [])
      && (IsWorker(u) ==> r.value.reviews == DetailReviews[..|r.value.reviews|])
      && (IsWorker(u) && u.totalReviews >= 2 ==> r.value.reviews == DetailReviews)
      && (IsWorker(u) ==> |r.value.reviews| == if u.totalReviews < |DetailReviews| then u.totalReviews else |DetailReviews|)
      && r.value.totalJobsCompleted == 3 * u.totalReviews
  {
    match Find(users, param)
    case None => Err(NotFound)
    case Some(k) =>
      var u := users[k];
      var reviews := Seqs.Take(DetailReviews, u.totalReviews);
      Ok(Detail(FormatUser(u), if IsWorker(u) then reviews else [], 3 * u.totalReviews))
  }

  /**
   * The `/stats` path never reaches its handler: the `/:id` route comes
   * first, and "stats" reads as NaN, which no id equals.
   */
  lemma StatsPathNotFound(users: Users)
    ensures UserDetail(users, "stats").Err?
  {
    assert TrimStart("stats") == "stats";
    assert !IsDigit('s');
    assert ParseInt("stats") == NotANumber;
  }

  /* ------------------------------------------------------------- reviews */

  datatype NewReview = NewReview(id: int, reviewerId: Value, rating: Value, comment: Value, jobId: Value, date: int)

  /** `v < c` for a number `c`: false whenever `v` does not convert to a number. */
  predicate Below(v: Value, c: real) {
    var x := ToNumber(v); x.Num? && x.n < c
  }

  /** `v > c` for a number `c`. */
  predicate Above(v: Value, c: real) {
    var x := ToNumber(v); x.Num? && x.n > c
  }

  /** The handler's guard, as written. */
  predicate ReviewRejectedAsWritten(body: map<string, Value>) {
    var rating := Field(body, "rating");
    !Truthy(Field(body, "reviewerId")) || !Truthy(rating) || Below(rating, 1.0) || Above(rating, 5.0)
  }

  /** The review record and the bumped list, once the guard has passed. */
  function Reviewed(users: Users, k: nat, body: map<string, Value>, now: int): (r: (Users, NewReview))
    requires k < |users|
    ensures |r.0| == |users|
    ensures r.0[k].totalReviews == users[k].totalReviews + 1
    ensures r.0[k].(totalReviews := users[k].totalReviews) == users[k]
    ensures forall i :: 0 <= i < |users| && i != k ==> r.0[i] == users[i]
    ensures r.1.id == now && r.1.reviewerId == Field(body, "reviewerId") && r.1.rating == Field(body, "rating")
    ensures Truthy(Field(body, "comment")) ==> r.1.comment == Field(body, "comment")
    ensures !Truthy(Field(body, "comment")) ==> r.1.comment == Str("")
    ensures Truthy(Field(body, "jobId")) ==> r.1.jobId == Field(body, "jobId")
    ensures !Truthy(Field(body, "jobId")) ==> r.1.jobId == Null
    ensures r.1.date % 86400000 == 0 && r.1.date <= now < r.1.date + 86400000
  {
    var review := NewReview(now, Field(body, "reviewerId"), Field(body, "rating"),
                            Or(Field(body, "comment"), Str("")), Or(Field(body, "jobId"), Null),
                            (now / 86400000) * 86400000);
    (users[k := users[k].(totalReviews := users[k].totalReviews + 1)], review)
  }

  /**
   * POST /:id/reviews as written: a rating that does not convert to a
   * number passes every comparison of the guard.
   */
  function AddReviewAsWritten(users: Users, param: string, body: map<string, Value>, now: int): (r: Result<(Users, NewReview), UserError>)
    ensures r == Err(NotFound) <==> Find(users, param).None?
    ensures r == Err(InvalidReview) <==> Find(users, param).Some? && ReviewRejectedAsWritten(body)
  {
    match Find(users, param)
    case None => Err(NotFound)
    case Some(k) =>
      if ReviewRejectedAsWritten(body) then Err(InvalidReview)
      else Ok(Reviewed(users, k, body, now))
  }

  /**
   * For any user the path finds, a review whose rating is truthy but not
   * a number (the word "great", say) is accepted and counted.
   */
  lemma NaNRatingAccepted(users: Users, param: string, body: map<string, Value>, now: int)
    requires Find(users, param).Some?
    requires Truthy(Field(body, "reviewerId")) && Truthy(Field(body, "rating"))
    requires ToNumber(Field(body, "rating")) == NotANumber
    ensures AddReviewAsWritten(users, param, body, now).Ok?
    ensures var k := Find(users, param).value;
      AddReviewAsWritten(users, param, body, now).value.0[k].totalReviews == users[k].totalReviews + 1
  {
  }

  /** A rating written as a word. */
  const WordRating := "great"

  /** The word rating needs no trimming. */
  lemma WordRatingTrimmed()
    ensures Trim(WordRating) == WordRating
  {
    assert WordRating[0] == 'g' && WordRating[|WordRating| - 1] == 't';
    TrimOfUnpadded(WordRating);
  }

  /** The word rating converts to NaN. */
  lemma GreatIsNotANumber()
    ensures ToNumber(Str(WordRating)) == NotANumber
  {
    WordRatingTrimmed();
    WordIsNotANumber(WordRating);
  }

  /** The guard as intended: a reviewer and a rating that is a number from 1 to 5. */
  predicate ReviewRejected(body: map<string, Value>) {
    var rating := ToNumber(Field(body, "rating"));
    !Truthy(Field(body, "reviewerId")) || !rating.Num? || rating.n < 1.0 || rating.n > 5.0
  }

  /** POST /:id/reviews with the rating required to be a number from 1 to 5. */
  function AddReview(users: Users, param: string, body: map<string, Value>, now: int): (r: Result<(Users, NewReview), UserError>)
    ensures r == Err(NotFound) <==> Find(users, param).None?
    ensures r == Err(InvalidReview) <==> Find(users, param).Some? && ReviewRejected(body)
    ensures r.Ok? ==> Truthy(Field(body, "reviewerId"))
    ensures r.Ok? ==> var x := ToNumber(Field(body, "rating")); x.Num? && 1.0 <= x.n <= 5.0
    ensures r.Ok? ==> var k := Find(users, param).value;
      && |r.value.0| == |users|
      && r.value.0[k].totalReviews == users[k].totalReviews + 1
      && forall i :: 0 <= i < |users| && i != k ==> r.value.0[i] == users[i]
  {
    match Find(users, param)
    case None => Err(NotFound)
    case Some(k) =>
      if ReviewRejected(body) then Err(InvalidReview)
      else Ok(Reviewed(users, k, body, now))
  }

  /** The intended guard refuses everything the written one refuses, and every rating that is not a number. */
  lemma IntendedGuardIsStricter(body: map<string, Value>)
    ensures ReviewRejectedAsWritten(body) ==> ReviewRejected(body)
    ensures ToNumber(Field(body, "rating")) == NotANumber ==> ReviewRejected(body)
  {
  }

  /* -------------------------------------------------------- popular skills */

  /** Every worker's skills, one after another. */
  function WorkerSkills(users: Users): (r: seq<string>)
    ensures forall i :: 0 <= i < |users| && IsWorker(users[i]) ==>
      forall j :: 0 <= j < |users[i].skills| ==> users[i].skills[j] in r
    ensures forall k :: 0 <= k < |r| ==> SkillOfAWorker(users, r[k])
  {
    if users == [] then []
    else
      var rest := WorkerSkills(users[1..]);
      var r := (if IsWorker(users[0]) then users[0].skills else []) + rest;
      assert forall i :: 1 <= i < |users| ==> users[i] == users[1..][i - 1];
      SkillsOfTailWorkers(users, rest);
      r
  }

  /** Some worker lists `skill` among their skills. */
  predicate SkillOfAWorker(users: Users, skill: string) {
    exists i, j :: 0 <= i < |users| && IsWorker(users[i]) && 0 <= j < |users[i].skills| && users[i].skills[j] == skill
  }

  lemma SkillsOfTailWorkers(users: Users, rest: seq<string>)
    requires users != [] && forall k :: 0 <= k < |rest| ==> SkillOfAWorker(users[1..], rest[k])
    ensures forall k :: 0 <= k < |rest| ==> SkillOfAWorker(users, rest[k])
    ensures IsWorker(users[0]) ==> forall k :: 0 <= k < |users[0].skills| ==> SkillOfAWorker(users, users[0].skills[k])
  {
    var tail := users[1..];
    forall k | 0 <= k < |rest| ensures SkillOfAWorker(users, rest[k]) {
      assert SkillOfAWorker(tail, rest[k]);
      var i, j :| 0 <= i < |tail| && IsWorker(tail[i]) && 0 <= j < |tail[i].skills| && tail[i].skills[j] == rest[k];
      assert users[i + 1] == tail[i];
    }
    if IsWorker(users[0]) {
      forall k | 0 <= k < |users[0].skills| ensures SkillOfAWorker(users, users[0].skills[k]) {
        assert users[0].skills[k] == users[0].skills[k];
      }
    }
  }

  datatype Popular = Popular(totalWorkers: nat, popularSkills: seq<Seqs.Entry<string>>)

  /**
   * GET /skills/popular: the ten most frequent skills among workers, most
   * frequent first, each with its number of occurrences; a skill left out
   * occurs no more often than any listed one, and of equally frequent
   * skills the ones seen first are listed, as the stable sort keeps them.
   */
  function PopularSkills(users: Users): (r: Popular)
    ensures r.totalWorkers == |Seqs.Filter(users, IsWorker)|
    ensures |r.popularSkills| <= 10
    ensures Seqs.SortedDesc(r.popularSkills, Seqs.EntryCount)
    ensures Seqs.DistinctKeys(r.popularSkills)
    ensures forall i :: 0 <= i < |r.popularSkills| ==>
      r.popularSkills[i].count == multiset(WorkerSkills(users))[r.popularSkills[i].key] >= 1
    ensures forall s :: s in WorkerSkills(users) ==>
      (s in Seqs.Keys(r.popularSkills) ||
       forall i :: 0 <= i < |r.popularSkills| ==> r.popularSkills[i].count >= multiset(WorkerSkills(users))[s])
    ensures forall s :: s in WorkerSkills(users) && s !in Seqs.Keys(r.popularSkills) ==>
      forall i :: 0 <= i < |r.popularSkills| ==>
        r.popularSkills[i].count > multiset(WorkerSkills(users))[s] ||
        Seqs.Position(WorkerSkills(users), r.popularSkills[i].key) < Seqs.Position(WorkerSkills(users), s)
    ensures |r.popularSkills| == 10 || forall s :: s in WorkerSkills(users) ==> s in Seqs.Keys(r.popularSkills)
  {
    Popular(|Seqs.Filter(users, IsWorker)|, Seqs.TopRanked(WorkerSkills(users), 10))
  }

  /* --------------------------------------------------------------- stats */

  predicate FullyVerified(u: DemoUser) { u.isVerified.phone && u.isVerified.id }

  /** The fixed list the stats report as top skills; it is not computed. */
  const TopSkills: seq<string> := ["plumbing", "cleaning", "electrical", "delivery", "construction"]

  datatype UserStats = UserStats(
    totalUsers: nat,
    workers: nat,
    employers: nat,
    workersByLocation: seq<Seqs.Entry<string>>,
    verifiedWorkers: nat,
    verifiedEmployers: nat,
    verifiedTotal: nat,
    topSkills: seq<string>)

  /** A worker whose phone and identity are both verified. */
  predicate VerifiedWorker(u: DemoUser) { IsWorker(u) && FullyVerified(u) }

  /** An employer whose phone and identity are both verified. */
  predicate VerifiedEmployer(u: DemoUser) { IsEmployer(u) && FullyVerified(u) }

  function WorkerLocations(users: Users): (r: seq<string>)
    ensures |r| == |Seqs.Filter(users, IsWorker)|
    ensures forall i :: 0 <= i < |r| ==> r[i] == Seqs.Filter(users, IsWorker)[i].location
  {
    var workers := Seqs.Filter(users, IsWorker);
    seq(|workers|, i requires 0 <= i < |workers| => workers[i].location)
  }

  /** The counts of GET /stats (the averages are left out). */
  function Stats(users: Users): (r: UserStats)
    ensures r.totalUsers == |users| && r.workers + r.employers <= r.totalUsers
    ensures r.workers == |Workers(users)| && r.employers == |Employers(users)|
    ensures Seqs.DistinctKeys(r.workersByLocation) && Seqs.SumCounts(r.workersByLocation) == r.workers
    ensures forall i :: 0 <= i < |r.workersByLocation| ==>
      r.workersByLocation[i].count == multiset(WorkerLocations(users))[r.workersByLocation[i].key]
    ensures r.verifiedWorkers <= r.workers && r.verifiedEmployers <= r.employers
    ensures r.verifiedTotal == r.verifiedWorkers + r.verifiedEmployers
    ensures r.verifiedWorkers == |Seqs.Filter(users, VerifiedWorker)| && r.verifiedEmployers == |Seqs.Filter(users, VerifiedEmployer)|
    ensures forall i :: 0 <= i < |users| && IsWorker(users[i]) ==> users[i].location in Seqs.Keys(r.workersByLocation)
  {
    var workers, employers := Seqs.Filter(users, IsWorker), Seqs.Filter(users, IsEmployer);
    WorkersAndEmployersDisjoint(users);
    var vw, ve := Seqs.Filter(workers, FullyVerified), Seqs.Filter(employers, FullyVerified);
    Seqs.FilterThen(users, IsWorker, FullyVerified, VerifiedWorker);
    Seqs.FilterThen(users, IsEmployer, FullyVerified, VerifiedEmployer);
    WorkerLocationsCovered(users);
    UserStats(|users|, |workers|, |employers|, Seqs.Tally(WorkerLocations(users)),
              |vw|, |ve|, |vw| + |ve|, TopSkills)
  }

  /** Every worker's location is a key of the location tally. */
  lemma WorkerLocationsCovered(users: Users)
    ensures forall i :: 0 <= i < |users| && IsWorker(users[i]) ==> users[i].location in Seqs.Keys(Seqs.Tally(WorkerLocations(users)))
  {
    var workers, locations := Seqs.Filter(users, IsWorker), WorkerLocations(users);
    Seqs.FilterMultiset(users, IsWorker);
    forall i | 0 <= i < |users| && IsWorker(users[i]) ensures users[i].location in Seqs.Keys(Seqs.Tally(locations)) {
      assert users[i] in multiset(workers);
      var m :| 0 <= m < |workers| && workers[m] == users[i];
      assert locations[m] == users[i].location;
    }
  }
}
