/**
 * The database the controllers work against: the three collections, their
 * unique indexes, and saving and removing an Application document together
 * with the hooks that fire.
 */
module Store {
  import opened Wrappers
  import opened Documents
  import opened JobSchema
  import opened ApplicationSchema
  import opened UserSchema
  import Seqs

  datatype Db = Db(jobs: seq<Job>, applications: seq<Application>, users: seq<User>)

  predicate UniqueApplicationIds(apps: seq<Application>) {
    forall i, j :: 0 <= i < j < |apps| ==> apps[i].id != apps[j].id
  }

  predicate UniqueUserIds(users: seq<User>) {
    forall i, j :: 0 <= i < j < |users| ==> users[i].id != users[j].id
  }

  /** The unique index on the user phone. */
  predicate UniquePhones(users: seq<User>) {
    forall i, j :: 0 <= i < j < |users| ==> users[i].phone != users[j].phone
  }

  /** The indexes hold and every stored user passed validation. */
  predicate WellFormed(db: Db) {
    UniqueJobIds(db.jobs) && UniqueApplicationIds(db.applications) && UniquePairs(db.applications)
    && UniqueUserIds(db.users) && UniquePhones(db.users)
    && forall i :: 0 <= i < |db.users| ==> ValidUser(db.users[i])
  }

  /** `User.findOne({ phone })`: the first user holding exactly this phone, or `|users|`. */
  function FindByPhone(users: seq<User>, phone: string): (k: nat)
    ensures k <= |users|
    ensures k < |users| ==> users[k].phone == phone
    ensures forall i :: 0 <= i < k ==> users[i].phone != phone
    ensures k == |users| <==> PhoneFree(users, phone)
  {
    Seqs.FirstIndex(users, (u: User) => u.phone == phone)
  }

  /** Appending a valid user whose id and phone are new keeps the store well-formed. */
  lemma AppendUserKeepsWellFormed(db: Db, u: User)
    requires ValidUser(u) && PhoneFree(db.users, u.phone)
    requires forall i :: 0 <= i < |db.users| ==> db.users[i].id != u.id
    ensures WellFormed(db) ==> WellFormed(db.(users := db.users + [u]))
  {
  }

  /** Whether the id is taken by an application. */
  predicate ApplicationIdUsed(db: Db, id: Id) {
    exists i :: 0 <= i < |db.applications| && db.applications[i].id == id
  }

  /** `Application.findOne({ job, worker })` finds something. */
  predicate HasApplied(db: Db, job: Id, worker: Id) {
    exists i :: 0 <= i < |db.applications| && db.applications[i].job == job && db.applications[i].worker == worker
  }

  /** The Application documents that reference a job. */
  function ApplicationsFor(db: Db, job: Id): (r: seq<Application>)
    ensures forall i :: 0 <= i < |r| ==> r[i].job == job
  {
    Seqs.Filter(db.applications, (a: Application) => a.job == job)
  }

  datatype StoreError = DuplicateKey

  /**
   * `application.save()`: an insert, or a replacement of the document with
   * the same id; the unique (job, worker) index refuses a pair another
   * document holds. On success the post-save hook runs.
   */
  function SaveApplication(db: Db, a: Application): (r: Result<Db, StoreError>)
    ensures r.Err? <==> exists i :: 0 <= i < |db.applications| && db.applications[i].id != a.id
                                    && db.applications[i].job == a.job && db.applications[i].worker == a.worker
    ensures r.Ok? ==> r.value.jobs == PostSave(db.jobs, a) && r.value.users == db.users
    ensures r.Ok? && !ApplicationIdUsed(db, a.id) ==> r.value.applications == db.applications + [a]
    ensures r.Ok? && WellFormed(db) ==> WellFormed(r.value)
  {
    var apps := db.applications;
    if exists i :: 0 <= i < |apps| && apps[i].id != a.id && apps[i].job == a.job && apps[i].worker == a.worker then
      Err(DuplicateKey)
    else
      var k := Seqs.FirstIndex(apps, (x: Application) => x.id == a.id);
      var apps' := if k < |apps| then apps[k := a] else apps + [a];
      var r := Db(PostSave(db.jobs, a), apps', db.users);
      SaveKeepsIndexes(db, a, k, r);
      Ok(r)
  }

  lemma SaveKeepsIndexes(db: Db, a: Application, k: nat, r: Db)
    requires k == Seqs.FirstIndex(db.applications, (x: Application) => x.id == a.id)
    requires forall i :: 0 <= i < |db.applications| && db.applications[i].id != a.id ==>
               db.applications[i].job != a.job || db.applications[i].worker != a.worker
    requires r == Db(PostSave(db.jobs, a),
                     if k < |db.applications| then db.applications[k := a] else db.applications + [a], db.users)
    ensures k == |db.applications| ==> !ApplicationIdUsed(db, a.id)
    ensures WellFormed(db) ==> WellFormed(r)
  {
    if WellFormed(db) {
      var apps := db.applications;
      var apps' := r.applications;
      if k < |apps| {
        forall i, j | 0 <= i < j < |apps'| ensures apps'[i].id != apps'[j].id {
          if i == k { assert apps[j].id != apps[k].id; } else if j == k { assert apps[i].id != apps[k].id; }
        }
      }
    }
  }

  /**
   * `application.remove()`: the document leaves the collection and the
   * post-remove hook takes one off its job's count.
   */
  function RemoveApplication(db: Db, a: Application): (r: Db)
    ensures !ApplicationIdUsed(r, a.id)
    ensures r.jobs == PostRemove(db.jobs, a) && r.users == db.users
    ensures multiset(r.applications) <= multiset(db.applications)
    ensures forall i :: 0 <= i < |db.applications| && db.applications[i].id != a.id ==> db.applications[i] in r.applications
  {
    var apps := Seqs.Filter(db.applications, (x: Application) => x.id != a.id);
    Seqs.FilterMultiset(db.applications, (x: Application) => x.id != a.id);
    assert forall i :: 0 <= i < |db.applications| ==> db.applications[i] in multiset(db.applications);
    Db(PostRemove(db.jobs, a), apps, db.users)
  }

  /**
   * The hook runs on every save: saving the same new application twice
   * stores it once but raises the count twice.
   */
  lemma SavingTwiceCountsTwice(db: Db, a: Application, i: nat)
    requires WellFormed(db) && !ApplicationIdUsed(db, a.id) && !HasApplied(db, a.job, a.worker)
    requires i < |db.jobs| && db.jobs[i].id == a.job
    ensures var once := SaveApplication(db, a);
      once.Ok? && SaveApplication(once.value, a).Ok?
      && SaveApplication(once.value, a).value.applications == db.applications + [a]
      && SaveApplication(once.value, a).value.jobs[i].applicationsCount == db.jobs[i].applicationsCount + 2
  {
    var once := SaveApplication(db, a).value;
    assert once.applications == db.applications + [a];
    var k := Seqs.FirstIndex(once.applications, (x: Application) => x.id == a.id);
    assert k == |db.applications| by {
      assert once.applications[|db.applications|] == a;
    }
    assert once.applications[k := a] == once.applications;
  }
}
