/**
 * The Application model (backend/models/application.js): one document per
 * (job, worker) pair, and the post-save and post-remove hooks that move the
 * job's `applicationsCount` by one through `findByIdAndUpdate`, an update
 * that does not run the Job pre-save hook.
 */
module ApplicationSchema {
  import opened Wrappers
  import opened Documents
  import opened JobSchema
  import Seqs

  /** `job` and `worker` are required, so they are plain ids here. */
  datatype Application = Application(
    id: Id,
    job: Id,
    worker: Id,
    status: ApplicationStatus,
    coverMessage: Option<string>,
    appliedAt: int)

  /** A new application: status defaults to pending and appliedAt to the current time. */
  function NewApplication(id: Id, job: Id, worker: Id, coverMessage: Option<string>, now: int): (a: Application)
    ensures a.status == Pending && a.appliedAt == now
    ensures a.id == id && a.job == job && a.worker == worker && a.coverMessage == coverMessage
  {
    Application(id, job, worker, Pending, coverMessage, now)
  }

  /** The unique index on (job, worker): no two applications share both. */
  predicate UniquePairs(apps: seq<Application>) {
    forall i, j :: 0 <= i < j < |apps| ==> apps[i].job != apps[j].job || apps[i].worker != apps[j].worker
  }

  /** `_id` is unique within a collection. */
  predicate UniqueJobIds(jobs: seq<Job>) {
    forall i, j :: 0 <= i < j < |jobs| ==> jobs[i].id != jobs[j].id
  }

  /** Where `findById(id)` finds a job; `|jobs|` when there is none. */
  function JobIndex(jobs: seq<Job>, id: Id): (k: nat)
    ensures k <= |jobs|
    ensures k < |jobs| ==> jobs[k].id == id
    ensures k == |jobs| <==> forall i :: 0 <= i < |jobs| ==> jobs[i].id != id
  {
    Seqs.FirstIndex(jobs, (j: Job) => j.id == id)
  }

  /**
   * `Job.findByIdAndUpdate(id, { $inc: { applicationsCount: delta } })`:
   * only the count of the job with that id moves, by exactly `delta`; no
   * other path and no other job changes, and nothing is re-derived.
   */
  function IncApplicationsCount(jobs: seq<Job>, id: Id, delta: int): (r: seq<Job>)
    ensures |r| == |jobs|
    ensures forall i :: 0 <= i < |jobs| ==> r[i].(applicationsCount := jobs[i].applicationsCount) == jobs[i]
    ensures UniqueJobIds(jobs) ==> forall i :: 0 <= i < |jobs| ==>
      r[i].applicationsCount == jobs[i].applicationsCount + (if jobs[i].id == id then delta else 0)
    ensures UniqueJobIds(r) <==> UniqueJobIds(jobs)
  {
    var k := JobIndex(jobs, id);
    if k == |jobs| then jobs
    else jobs[k := jobs[k].(applicationsCount := jobs[k].applicationsCount + delta)]
  }

  /** `post('save')`: every save, not only the first, adds one to the job's count. */
  function PostSave(jobs: seq<Job>, a: Application): (r: seq<Job>)
    ensures |r| == |jobs|
  {
    IncApplicationsCount(jobs, a.job, 1)
  }

  /** `post('remove')`: removing takes one off the job's count. */
  function PostRemove(jobs: seq<Job>, a: Application): (r: seq<Job>)
    ensures |r| == |jobs|
  {
    IncApplicationsCount(jobs, a.job, -1)
  }

  /** A save followed by a remove of the same application leaves every job as it was. */
  lemma SaveThenRemoveRestores(jobs: seq<Job>, a: Application)
    ensures PostRemove(PostSave(jobs, a), a) == jobs
  {
    var k := JobIndex(jobs, a.job);
    var mid := PostSave(jobs, a);
    assert JobIndex(mid, a.job) == k by {
      assert forall i :: 0 <= i < |jobs| ==> mid[i].id == jobs[i].id;
    }
  }

  /**
   * The hooks bypass the Job pre-save hook: a job whose count matched its
   * embedded array no longer does after a hook has run.
   */
  lemma HooksBreakPreSaveAgreement(jobs: seq<Job>, a: Application, i: nat)
    requires UniqueJobIds(jobs) && i < |jobs| && jobs[i].id == a.job
    requires jobs[i].applicationsCount == |jobs[i].applications|
    ensures PostSave(jobs, a)[i].applicationsCount == |PostSave(jobs, a)[i].applications| + 1
    ensures PostRemove(jobs, a)[i].applicationsCount == |PostRemove(jobs, a)[i].applications| - 1
  {
  }
}
