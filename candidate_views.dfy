/** The candidate view set: uploading a résumé, applying to a job posting, checking
    whether one has applied, and the per-action choice of queryset and serializer. */
module CandidateViews {
  import opened Wrappers
  import opened Seqs
  import opened Models
  import opened Store

  // Per-action dispatch

  const RESUME_ACTIONS: seq<string> :=
    ["retrieve", "update", "partial_update", "destroy", "download"]
  const APPLICATION_ACTIONS: seq<string> := ["apply", "list_applications"]
  const RESUME_SERIALIZER_ACTIONS: seq<string> :=
    ["retrieve", "update", "partial_update", "list", "create", "upload_resume", "my_resume"]

  /** The rows a queryset yields. */
  datatype Rows =
    | ResumeRows(resumes: seq<Resume>)
    | JobRows(jobs: seq<Job>)
    | ApplicationRows(applications: seq<Application>)

  /** `get_queryset`: résumé and application actions see only the requesting user's rows,
      `list_jobs` sees the open postings, and any other action gets no queryset. */
  function GetQueryset(action: string, user: Id, resumes: seq<Resume>, jobs: seq<Job>,
                       apps: seq<Application>): (r: Option<Rows>)
    ensures r.None? <==>
              action !in RESUME_ACTIONS && action != "list_jobs" && action !in APPLICATION_ACTIONS
    ensures r.Some? && r.value.ResumeRows? ==>
              action in RESUME_ACTIONS &&
              forall x :: x in r.value.resumes <==> x in resumes && x.user == Some(user)
    ensures r.Some? && r.value.JobRows? ==>
              action == "list_jobs" && forall x :: x in r.value.jobs <==> x in jobs && x.open
    ensures r.Some? && r.value.ApplicationRows? ==>
              action in APPLICATION_ACTIONS &&
              forall x :: x in r.value.applications <==> x in apps && x.candidate == user
  {
    if action in RESUME_ACTIONS then Some(ResumeRows(ResumesOf(resumes, user)))
    else if action == "list_jobs" then Some(JobRows(OpenJobs(jobs)))
    else if action in APPLICATION_ACTIONS then Some(ApplicationRows(ApplicationsOf(apps, user)))
    else None
  }

  datatype SerializerClass = ResumeSerializer | JobPostingSerializer | ApplicationSerializer

  /** `get_serializer_class`: None for every action not listed. */
  function GetSerializerClass(action: string): (r: Option<SerializerClass>)
    ensures r.None? <==>
              action !in RESUME_SERIALIZER_ACTIONS && action != "list_jobs" &&
              action !in APPLICATION_ACTIONS
    ensures action in RESUME_SERIALIZER_ACTIONS ==> r == Some(ResumeSerializer)
    ensures action == "list_jobs" ==> r == Some(JobPostingSerializer)
    ensures action in APPLICATION_ACTIONS ==> r == Some(ApplicationSerializer)
  {
    if action in RESUME_SERIALIZER_ACTIONS then Some(ResumeSerializer)
    else if action == "list_jobs" then Some(JobPostingSerializer)
    else if action in APPLICATION_ACTIONS then Some(ApplicationSerializer)
    else None
  }

  /** Wherever an action has both a queryset and a serializer, the serializer is the one
      for the rows the queryset yields. */
  lemma SerializerMatchesQueryset(action: string, user: Id, resumes: seq<Resume>,
                                  jobs: seq<Job>, apps: seq<Application>)
    requires GetQueryset(action, user, resumes, jobs, apps).Some?
    requires GetSerializerClass(action).Some?
    ensures var rows := GetQueryset(action, user, resumes, jobs, apps).value;
            var s := GetSerializerClass(action).value;
            && (rows.ResumeRows? <==> s == ResumeSerializer)
            && (rows.JobRows? <==> s == JobPostingSerializer)
            && (rows.ApplicationRows? <==> s == ApplicationSerializer)
  {
  }

  // Applying to a job posting

  datatype ApplyOutcome =
    | JobNotFound                          // no posting with that key
    | NoResume                             // the candidate has not uploaded a résumé
    | AlreadyApplied                       // an application for (job, candidate) exists
    | Applied(application: Application)
  {
    function HttpStatus(): nat
    {
      match this
      case JobNotFound => 404
      case NoResume => 404
      case AlreadyApplied => 400
      case Applied(_) => 201
    }
  }

  /** Appending an application with a fresh key, a valid status and a (job, candidate)
      pair not yet present keeps the application table valid. */
  lemma AppendApplicationKeepsValid(apps: seq<Application>, next: Id, a: Application)
    requires ApplicationsValid(apps, next)
    requires a.id == next && IsStatusCode(a.status) && !HasApplied(apps, a.job, a.candidate)
    ensures ApplicationsValid(apps + [a], next + 1)
  {
    var apps' := apps + [a];
    forall i, j | 0 <= i < j < |apps'|
      ensures apps'[i].job != apps'[j].job || apps'[i].candidate != apps'[j].candidate
    {
      if j == |apps| {
        assert apps'[i] == apps[i];
      }
    }
  }

  /** `apply(pk)`: the posting must exist, then the candidate must have a résumé, then no
      application for (posting, candidate) may exist; only then is one application added,
      linking the posting, the candidate and the candidate's résumé, with status PENDING.
      Every refusal leaves the store unchanged. */
  method Apply(db: Db, user: Id, pk: Id, today: Day) returns (r: ApplyOutcome)
    requires db.Valid()
    modifies db`applications, db`nextApplicationId
    ensures db.Valid()
    ensures FindJob(db.jobs, pk).None? ==> r == JobNotFound
    ensures FindJob(db.jobs, pk).Some? && FindResumeOf(db.resumes, user).None? ==> r == NoResume
    ensures (FindJob(db.jobs, pk).Some? && FindResumeOf(db.resumes, user).Some? &&
             HasApplied(old(db.applications), pk, user)) ==> r == AlreadyApplied
    ensures (FindJob(db.jobs, pk).Some? && FindResumeOf(db.resumes, user).Some? &&
             !HasApplied(old(db.applications), pk, user)) ==> r.Applied?
    ensures !r.Applied? ==>
              db.applications == old(db.applications) &&
              db.nextApplicationId == old(db.nextApplicationId)
    ensures r.Applied? ==>
              && r.application == NewApplication(old(db.nextApplicationId), pk, user,
                                                 db.resumes[FindResumeOf(db.resumes, user).value].id,
                                                 today)
              && db.applications == old(db.applications) + [r.application]
              && CheckApplication(db.jobs, db.applications, user, pk) == Checked(true)
  {
    var job := FindJob(db.jobs, pk);
    if job.None? {
      return JobNotFound;
    }
    var resume := FindResumeOf(db.resumes, user);
    if resume.None? {
      return NoResume;
    }
    if HasApplied(db.applications, pk, user) {
      return AlreadyApplied;
    }
    var application := NewApplication(db.nextApplicationId, pk, user,
                                      db.resumes[resume.value].id, today);
    AppendApplicationKeepsValid(db.applications, db.nextApplicationId, application);
    db.applications := db.applications + [application];
    db.nextApplicationId := db.nextApplicationId + 1;
    CheckAfterInsert(db.jobs, old(db.applications), application);
    return Applied(application);
  }

  datatype CheckOutcome = CheckJobNotFound | Checked(hasApplied: bool)
  {
    function HttpStatus(): nat
    {
      if CheckJobNotFound? then 404 else 200
    }
  }

  /** `check_application(pk)`: 404 for an unknown posting, otherwise whether the user has
      an application for it. */
  function CheckApplication(jobs: seq<Job>, apps: seq<Application>, user: Id, pk: Id)
    : (r: CheckOutcome)
    ensures r == CheckJobNotFound <==> forall i :: 0 <= i < |jobs| ==> jobs[i].id != pk
    ensures r.Checked? ==>
              (r.hasApplied <==>
                 exists i :: 0 <= i < |apps| && apps[i].job == pk && apps[i].candidate == user)
  {
    if FindJob(jobs, pk).None? then CheckJobNotFound
    else Checked(HasApplied(apps, pk, user))
  }

  /** Once an application for an existing posting is stored, checking that posting
      reports it. */
  lemma CheckAfterInsert(jobs: seq<Job>, apps: seq<Application>, a: Application)
    requires FindJob(jobs, a.job).Some?
    ensures CheckApplication(jobs, apps + [a], a.candidate, a.job) == Checked(true)
  {
    var apps' := apps + [a];
    assert apps'[|apps|] == a;
  }

  // Uploading a résumé

  /** What the external résumé parser extracted from the uploaded document. */
  datatype ParsedResume = ParsedResume(email: Option<string>, mobileNumber: Option<string>,
                                       education: Option<seq<string>>,
                                       skills: Option<seq<string>>,
                                       experience: Option<seq<string>>)

  const LIST_SEPARATOR: string := ", "

  /** `', '.join(xs) if xs else None`: an absent or empty list is stored as None. */
  function JoinedOrNone(xs: Option<seq<string>>): (r: Option<string>)
    ensures r.None? <==> xs.None? || xs.value == []
  {
    if xs.None? || xs.value == [] then None else Some(Join(xs.value, LIST_SEPARATOR))
  }

  /** A stored list field gives the parser's list back when no item contains a comma. */
  lemma StoredListRoundTrip(xs: seq<string>)
    requires |xs| > 0
    requires forall k :: 0 <= k < |xs| ==> ',' !in xs[k]
    ensures JoinedOrNone(Some(xs)).Some?
    ensures Split(JoinedOrNone(Some(xs)).value, LIST_SEPARATOR) == xs
  {
    SplitJoin(xs, LIST_SEPARATOR);
  }

  datatype UploadOutcome = NoFile | Uploaded(resume: Resume)
  {
    function HttpStatus(): nat
    {
      if NoFile? then 400 else 201
    }
  }

  lemma ReplaceResumeKeepsValid(resumes: seq<Resume>, next: Id, i: nat, r: Resume)
    requires ResumesValid(resumes, next) && i < |resumes|
    requires r.id == resumes[i].id && r.user == resumes[i].user
    ensures ResumesValid(resumes[i := r], next)
  {
    var rs := resumes[i := r];
    forall a, b | 0 <= a < b < |rs| && rs[a].user.Some?
      ensures rs[a].user != rs[b].user
    {
      assert rs[a].user == resumes[a].user && rs[b].user == resumes[b].user;
    }
  }

  lemma AppendResumeKeepsValid(resumes: seq<Resume>, next: Id, r: Resume)
    requires ResumesValid(resumes, next)
    requires r.id == next && r.user.Some? && FindResumeOf(resumes, r.user.value).None?
    ensures ResumesValid(resumes + [r], next + 1)
  {
    var rs := resumes + [r];
    forall a, b | 0 <= a < b < |rs| && rs[a].user.Some?
      ensures rs[a].user != rs[b].user
    {
      if b == |resumes| {
        assert rs[a] == resumes[a];
      }
    }
  }

  /** `upload_resume`: without a file nothing changes. Otherwise the user's résumé (an
      existing one, or a new one dated `today`) gets the file and is saved, and after
      parsing it is saved again with the account's name (not the parsed one), the parsed
      e-mail and phone number, and the parsed lists joined with ", " (None when absent or
      empty). The removal of the previous file from disk is not modelled. */
  method UploadResume(db: Db, account: User, file: Option<string>, data: ParsedResume,
                      today: Day) returns (r: UploadOutcome)
    requires db.Valid()
    modifies db`resumes, db`nextResumeId
    ensures db.Valid()
    ensures file.None? ==>
              r == NoFile && db.resumes == old(db.resumes) &&
              db.nextResumeId == old(db.nextResumeId)
    ensures file.Some? ==>
              && r.Uploaded?
              && r.resume.user == Some(account.id)
              && r.resume.file == file
              && r.resume.name == Some(account.name)
              && r.resume.email == data.email
              && r.resume.mobileNumber == data.mobileNumber
              && r.resume.education == JoinedOrNone(data.education)
              && r.resume.skills == JoinedOrNone(data.skills)
              && r.resume.experience == JoinedOrNone(data.experience)
    ensures file.Some? && FindResumeOf(old(db.resumes), account.id).Some? ==>
              var i := FindResumeOf(old(db.resumes), account.id).value;
              && r.resume.id == old(db.resumes)[i].id
              && r.resume.uploadedOn == old(db.resumes)[i].uploadedOn
              && db.resumes == old(db.resumes)[i := r.resume]
              && db.nextResumeId == old(db.nextResumeId)
    ensures file.Some? && FindResumeOf(old(db.resumes), account.id).None? ==>
              && r.resume.id == old(db.nextResumeId)
              && r.resume.uploadedOn == today
              && db.resumes == old(db.resumes) + [r.resume]
              && db.nextResumeId == old(db.nextResumeId) + 1
  {
    if file.None? {
      return NoFile;
    }

    var found := FindResumeOf(db.resumes, account.id);
    var i: nat;
    var resume: Resume;
    if found.Some? {
      i := found.value;
      resume := db.resumes[i].(file := file);
      ReplaceResumeKeepsValid(db.resumes, db.nextResumeId, i, resume);
      db.resumes := db.resumes[i := resume];
    } else {
      i := |db.resumes|;
      resume := Resume(db.nextResumeId, Some(account.id), file, None, None, None, None, None,
                       None, today);
      AppendResumeKeepsValid(db.resumes, db.nextResumeId, resume);
      db.resumes := db.resumes + [resume];
      db.nextResumeId := db.nextResumeId + 1;
    }

    resume := resume.(name := Some(account.name),
                      email := data.email,
                      mobileNumber := data.mobileNumber,
                      education := JoinedOrNone(data.education),
                      skills := JoinedOrNone(data.skills),
                      experience := JoinedOrNone(data.experience));
    ReplaceResumeKeepsValid(db.resumes, db.nextResumeId, i, resume);
    db.resumes := db.resumes[i := resume];
    return Uploaded(resume);
  }
}
