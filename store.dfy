/** The database as four in-memory tables, with the constraints the schema enforces
    (unique keys, unique e-mails, one résumé per user), the invariants the views keep
    (one application per job and candidate, statuses that are codes), and the lookups
    and filters the views run against it. */
module Store {
  import opened Wrappers
  import opened Models

  // Table invariants

  predicate UsersValid(users: seq<User>, next: Id)
  {
    && (forall i :: 0 <= i < |users| ==> users[i].id < next)
    && (forall i, j :: 0 <= i < j < |users| ==> users[i].id != users[j].id)
    && (forall i, j :: 0 <= i < j < |users| ==> users[i].email != users[j].email)
  }

  /** `Resume.user` is a one-to-one field: at most one résumé per user. */
  predicate ResumesValid(resumes: seq<Resume>, next: Id)
  {
    && (forall i :: 0 <= i < |resumes| ==> resumes[i].id < next)
    && (forall i, j :: 0 <= i < j < |resumes| ==> resumes[i].id != resumes[j].id)
    && (forall i, j :: 0 <= i < j < |resumes| && resumes[i].user.Some? ==>
          resumes[i].user != resumes[j].user)
  }

  predicate JobsValid(jobs: seq<Job>)
  {
    forall i, j :: 0 <= i < j < |jobs| ==> jobs[i].id != jobs[j].id
  }

  /** Every status is one of the three codes, and a candidate has at most one
      application per job. */
  predicate ApplicationsValid(apps: seq<Application>, next: Id)
  {
    && (forall i :: 0 <= i < |apps| ==> apps[i].id < next)
    && (forall i, j :: 0 <= i < j < |apps| ==> apps[i].id != apps[j].id)
    && (forall i :: 0 <= i < |apps| ==> IsStatusCode(apps[i].status))
    && (forall i, j :: 0 <= i < j < |apps| ==>
          apps[i].job != apps[j].job || apps[i].candidate != apps[j].candidate)
  }

  class Db {
    var users: seq<User>
    var resumes: seq<Resume>
    var jobs: seq<Job>
    var applications: seq<Application>
    var nextUserId: Id
    var nextResumeId: Id
    var nextApplicationId: Id

    ghost predicate Valid()
      reads this
    {
      && UsersValid(users, nextUserId)
      && ResumesValid(resumes, nextResumeId)
      && JobsValid(jobs)
      && ApplicationsValid(applications, nextApplicationId)
    }

    /** A database with no users, résumés or applications yet, holding job postings
        that the recruiter and admin views (outside this model) created. */
    constructor (jobs: seq<Job>)
      requires JobsValid(jobs)
      ensures Valid()
      ensures users == [] && resumes == [] && applications == [] && this.jobs == jobs
    {
      users, resumes, this.jobs, applications := [], [], jobs, [];
      nextUserId, nextResumeId, nextApplicationId := 1, 1, 1;
    }
  }

  // Lookups

  /** `JobPosting.objects.get(pk=id)` */
  function FindJob(jobs: seq<Job>, id: Id): (r: Option<Job>)
    ensures r.Some? ==> r.value in jobs && r.value.id == id
    ensures r.None? ==> forall i :: 0 <= i < |jobs| ==> jobs[i].id != id
  {
    if jobs == [] then None
    else if jobs[0].id == id then Some(jobs[0])
    else FindJob(jobs[1..], id)
  }

  /** Position of the first element satisfying `p`, if any. */
  function FindFirst<T>(xs: seq<T>, p: T -> bool): (r: Option<nat>)
    ensures r.Some? ==> r.value < |xs| && p(xs[r.value])
    ensures r.Some? ==> forall j :: 0 <= j < r.value ==> !p(xs[j])
    ensures r.None? ==> forall i :: 0 <= i < |xs| ==> !p(xs[i])
  {
    if xs == [] then None
    else if p(xs[0]) then Some(0)
    else
      var r := FindFirst(xs[1..], p);
      if r.Some? then Some(r.value + 1) else None
  }

  /** Position of the résumé attached to `user`, if any. */
  function FindResumeOf(resumes: seq<Resume>, user: Id): (r: Option<nat>)
    ensures r.Some? ==> r.value < |resumes| && resumes[r.value].user == Some(user)
    ensures r.None? ==> forall i :: 0 <= i < |resumes| ==> resumes[i].user != Some(user)
  {
    FindFirst(resumes, (x: Resume) => x.user == Some(user))
  }

  /** Position of the application with primary key `id`, if any. */
  function FindApplicationById(apps: seq<Application>, id: Id): (r: Option<nat>)
    ensures r.Some? ==> r.value < |apps| && apps[r.value].id == id
    ensures r.None? ==> forall i :: 0 <= i < |apps| ==> apps[i].id != id
  {
    FindFirst(apps, (x: Application) => x.id == id)
  }

  /** `Application.objects.filter(job=job, candidate=user).exists()` */
  function HasApplied(apps: seq<Application>, job: Id, user: Id): (b: bool)
    ensures b <==> exists i :: 0 <= i < |apps| && apps[i].job == job && apps[i].candidate == user
  {
    if apps == [] then false
    else if apps[0].job == job && apps[0].candidate == user then true
    else
      assert forall i :: 1 <= i < |apps| ==> apps[i] == apps[1..][i - 1];
      HasApplied(apps[1..], job, user)
  }

  // Filters

  /** `Resume.objects.filter(user=user)` */
  function ResumesOf(resumes: seq<Resume>, user: Id): (r: seq<Resume>)
    ensures forall x :: x in r <==> x in resumes && x.user == Some(user)
  {
    if resumes == [] then []
    else if resumes[0].user == Some(user) then [resumes[0]] + ResumesOf(resumes[1..], user)
    else ResumesOf(resumes[1..], user)
  }

  /** `JobPosting.objects.filter(status=True)` */
  function OpenJobs(jobs: seq<Job>): (r: seq<Job>)
    ensures forall x :: x in r <==> x in jobs && x.open
  {
    if jobs == [] then []
    else if jobs[0].open then [jobs[0]] + OpenJobs(jobs[1..])
    else OpenJobs(jobs[1..])
  }

  /** `Application.objects.filter(candidate=user)` */
  function ApplicationsOf(apps: seq<Application>, user: Id): (r: seq<Application>)
    ensures |r| <= |apps|
    ensures forall x :: x in r <==> x in apps && x.candidate == user
  {
    if apps == [] then []
    else if apps[0].candidate == user then [apps[0]] + ApplicationsOf(apps[1..], user)
    else ApplicationsOf(apps[1..], user)
  }
}
