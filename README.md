# cvjob-backend: a verified model of the job board's core

cvjob-backend is a Django REST back end for a job board. Candidates upload a résumé and
apply to job postings. Recruiters publish postings and rule on the applications they
receive. Admins see site-wide statistics. This project models, in Dafny, the logic of that
back end once its database is replaced by in-memory tables:

- **Stats**: the daily rate series of résumé uploads and of applications over a trailing
  week, month or year, and the summary counts of the admin, candidate and recruiter
  dashboards.
- **ApplicationViews**: the guarded overwrite of an application's status with one of the
  three codes `PE`, `AC` and `RE`.
- **CandidateViews**: applying to a posting, checking whether one has applied, uploading
  a résumé, and the per-action choice of queryset and serializer.
- **UserManager** and **Models**: account creation and superuser defaulting, the role
  predicates, the application status vocabulary and its default, and the blog-slug
  default.
- **Permissions**: the five permission classes, and DRF's rule that a view admits a
  request only when every listed class passes.
- **Store**: the database as a `Db` class. Its seq-valued fields are the users, résumés,
  job postings and applications tables. `Db.Valid()` holds the schema's constraints
  (unique keys, unique e-mails, one résumé per user) and two invariants that the schema
  does not enforce but the views keep: one application per (posting, candidate) pair,
  kept by the check in `apply`, and statuses that are codes, kept by the guard in
  `update_status` and the default status. Every state-changing operation keeps `Valid()`.
- **Seqs** and **Wrappers**: helpers for counting, grouping, most and least frequent
  values, joining and splitting strings, and `Option`/`Result`.

Days are integers and "today" is a parameter. Rates are exact `real`s. The framework's
e-mail normalisation and `slugify` are function parameters. The résumé parser's output is
a `ParsedResume` value.

## Model

| member | source | states |
|---|---|---|
| Stats.WindowDays | resume_parser/parser_app/stats.py:12-19 | the window is 7, 30 or 365 days long |
| Stats.WindowLengths | resume_parser/parser_app/stats.py:12-19 | "week", "month" and "year" give 7, 30 and 365 days; any other period gives 7 |
| Stats.RateSeries | resume_parser/parser_app/stats.py:21-49 | the loop yields one entry per window day, ascending and without gaps, from today-(W-1) to today; each entry's rate is the reference rate `RateOn` of that day, with the running total seeded by the events before the window |
| Stats.CvRegistrationRate | resume_parser/parser_app/stats.py:9-49 | the upload rate series is the generic series over the résumés' upload days |
| Stats.ApplicationRate | resume_parser/parser_app/stats.py:115-155 | the application rate series is the same generic series over the application days |
| Stats.DailyCounts | resume_parser/parser_app/stats.py:25-32 | the per-day dictionary maps each window day to its number of events; a day that is absent has none |
| Stats.CountBeforeStep | resume_parser/parser_app/stats.py:38-42 | adding a day's events to the total of earlier events gives the total up to and including that day |
| Stats.CountBeforeMonotone | resume_parser/parser_app/stats.py:38-42 | the running total never decreases from one day to a later one |
| Stats.CountBeforeAppend | resume_parser/parser_app/stats.py:35 | the count of events before a day adds up over two batches of events |
| Stats.CountBeforeNone | resume_parser/parser_app/stats.py:35 | no event is counted before a day that precedes all of them |
| Stats.DailyWithinCumulative | resume_parser/parser_app/stats.py:41-43 | a day's count never exceeds the running total after adding it |
| Stats.RateWithinBounds | resume_parser/parser_app/stats.py:43 | every rate lies between 0 and 100 |
| Stats.RateZeroIffNoEvents | resume_parser/parser_app/stats.py:41-43 | a rate is 0 exactly on days with no events |
| Stats.PercentOfTotal | resume_parser/parser_app/stats.py:43 | the percentage a part makes of a positive total lies in [0, 100]; it is 0 exactly for an empty part and 100 exactly for the whole |
| Stats.RateFullIffFirstEvents | resume_parser/parser_app/stats.py:43 | a rate is 100 exactly on a day with events and none before it |
| Stats.NoEventsNoRates | resume_parser/parser_app/stats.py:38-43 | with no events at all, every rate is 0 |
| Stats.LaterEventsIgnored | resume_parser/parser_app/stats.py:25-43 | events dated after today change no rate in a window that ends today |
| Stats.ThreeDayScenario | resume_parser/parser_app/stats.py:40-47 | 2 events on day 0, none on day 1 and 3 on day 2 give rates 100, 0 and 60 |
| Stats.UserCountsByRole | resume_parser/parser_app/stats.py:53 | the grouped query has one row per role present, each with that role's number of users, and no role twice |
| Stats.LastCountForGroups | resume_parser/parser_app/stats.py:62-68 | over the grouped rows, the last row for a role holds that role's count; with no row, the value is 0 |
| Stats.GetAdminStats | resume_parser/parser_app/stats.py:52-69 | each role count is the number of users with that role; roles absent from the rows keep 0, and rows for other roles are ignored; résumé, offer and application counts are the table sizes |
| Stats.RoleCountsBounded | resume_parser/parser_app/stats.py:53-68 | the three role counts add up to at most the number of users, and to exactly that when every user has one of the three roles |
| Stats.StatusCountsPartition | resume_parser/parser_app/stats.py:94-97 | accepted, rejected and pending add up to the number of applications when every status is a code |
| Stats.GetCandidateStats | resume_parser/parser_app/stats.py:92-112 | the application count is the number of the candidate's applications and each status count the number of those with that status; the three status counts add up to the application count when every status is a code; the most applied category and city are values of maximal frequency among the postings applied to; with no application both are the placeholder text |
| Stats.JobsOf | resume_parser/parser_app/stats.py:74 | exactly the postings of the recruiter |
| Stats.ApplicationsTo | resume_parser/parser_app/stats.py:75 | exactly the applications to the recruiter's postings |
| Stats.GetRecruiterStats | resume_parser/parser_app/stats.py:72-89 | the offer count is the number of the recruiter's postings, the open and closed counts those that are open and closed, and the application count the number of applications to those postings; open and closed offers add up to the offers; the most and least popular titles have maximal and minimal frequency among the titles applied to; with no application both are the same placeholder |
| Seqs.MostFrequent | resume_parser/parser_app/stats.py:100 | `order_by('-count').first()` over a grouping gives a value present in the input whose count is not exceeded by any other |
| Seqs.LeastFrequent | resume_parser/parser_app/stats.py:84 | `.last()` of the same ordering gives a present value whose count is at most that of every other value |
| ApplicationViews.UpdateStatus | resume_parser/parser_app/application_views.py:14-35 | an unknown key gives 404; a missing or empty status gives "status is required", checked before validity; a non-code gives "Invalid status"; a code is written verbatim from any current status; nothing else changes, and the status table stays valid |
| ApplicationViews.SetStatusKeepsValid | resume_parser/parser_app/application_views.py:31-32 | writing a code as an application's status keeps every table constraint |
| CandidateViews.GetQueryset | resume_parser/parser_app/candidate_views.py:22-28 | résumé actions see exactly the user's résumés, `list_jobs` exactly the open postings, and application actions exactly the user's applications; any other action gets none |
| CandidateViews.GetSerializerClass | resume_parser/parser_app/candidate_views.py:30-37 | the résumé actions get the résumé serializer, `list_jobs` the posting serializer, the application actions the application serializer, and every other action None |
| CandidateViews.SerializerMatchesQueryset | resume_parser/parser_app/candidate_views.py:22-37 | where both exist, the serializer is the one for the rows the queryset yields |
| CandidateViews.Apply | resume_parser/parser_app/candidate_views.py:118-151 | checks in order: posting exists (else 404), résumé exists (else 404), no application for the pair yet (else 400); each refusal leaves the store unchanged; when all three pass it succeeds, and appends exactly one PENDING application linking posting, candidate and résumé, and `check_application` then answers true |
| CandidateViews.AppendApplicationKeepsValid | resume_parser/parser_app/candidate_views.py:138-146 | inserting only when the pair is absent keeps at most one application per (posting, candidate) |
| CandidateViews.CheckApplication | resume_parser/parser_app/candidate_views.py:164-168 | 404 exactly when no posting has the key; otherwise true iff an application for (posting, user) exists |
| CandidateViews.CheckAfterInsert | resume_parser/parser_app/candidate_views.py:146-168 | once an application is stored, checking its posting for its candidate answers true |
| CandidateViews.JoinedOrNone | resume_parser/parser_app/candidate_views.py:93-95 | an absent or empty parser list is stored as None, and only then |
| CandidateViews.StoredListRoundTrip | resume_parser/parser_app/candidate_views.py:93-95 | splitting a stored list at ", " gives the parser's list back when no item contains a comma |
| CandidateViews.ReplaceResumeKeepsValid | resume_parser/parser_app/candidate_views.py:69-79 | updating a user's résumé in place keeps one résumé per user |
| CandidateViews.AppendResumeKeepsValid | resume_parser/parser_app/candidate_views.py:75-79 | creating a résumé for a user without one keeps one résumé per user |
| CandidateViews.UploadResume | resume_parser/parser_app/candidate_views.py:62-99 | without a file, 400 and no change; otherwise the user's existing résumé is updated in place, or one is created; it gets the file, the account's name (not the parsed one), the parsed e-mail and phone, and the lists joined or None |
| Models.RolePredicatesExclusive | resume_parser/parser_app/models.py:34-70 | at most one role predicate holds; an account without a role is a candidate |
| Models.ChoiceKeys | resume_parser/parser_app/application_views.py:25 | `dict(choices)` has exactly the first components as keys |
| Models.StatusCodesAreExactlyThree | resume_parser/parser_app/models.py:120-127 | the status codes are exactly PE, AC and RE; the full names and "" are not codes |
| Models.NewApplication | resume_parser/parser_app/models.py:129-133 | a new application has status PENDING, a valid code, and the given posting, candidate and résumé |
| Models.Blog.Save | resume_parser/parser_app/models.py:148-151 | an empty slug becomes the slugified title; a set slug is never overwritten |
| UserManager.SetDefault | resume_parser/parser_app/models.py:22-24 | `setdefault` adds a key only if the caller did not supply it and keeps every supplied value |
| UserManager.SuperuserFields | resume_parser/parser_app/models.py:22-29 | the fields passed on are the three defaults applied to the caller's: is_staff, is_superuser and role default to True, True and ADMIN; any flag other than exactly True is refused, is_staff first |
| UserManager.FindEmail | resume_parser/parser_app/models.py:44 | finds the account with a given e-mail, or shows that none has it |
| UserManager.CreateUser | resume_parser/parser_app/models.py:12-19 | a missing or empty e-mail raises ValueError and saves nothing; otherwise one account with the normalised e-mail and the extra fields is appended, unless the e-mail is taken |
| UserManager.CreateSuperuser | resume_parser/parser_app/models.py:21-31 | the flag checks precede the e-mail check; once they pass, a missing e-mail raises, a taken e-mail is refused, and otherwise exactly one account is appended with the next key, the normalised e-mail, the name and the defaulted fields; that account is staff and superuser, and is admin unless the caller chose another role |
| Permissions.HasPermission | resume_parser/parser_app/permissions.py:1-26 | an unauthenticated request passes only `Any` |
| Permissions.Admits | resume_parser/parser_app/admin_views.py:160 | a view admits a request iff every one of its permission classes passes |
| Permissions.RoleClassesMatchRoles | resume_parser/parser_app/permissions.py:4-26 | each role class passes iff the user is authenticated with that role; `IsAdminOrRecruiter` is `IsAdmin` or `IsRecruiter`; `Any` always passes |
| Permissions.AdminJobPostingViewAdmitsNobody | resume_parser/parser_app/admin_views.py:157-160 | no user passes both `IsAdmin` and `IsRecruiter`; a candidate never passes `IsAdminOrRecruiter`; the admin job-posting view admits nobody |
| Permissions.CorrectedAdminJobPostingViewAdmitsStaff | resume_parser/parser_app/admin_views.py:157-167 | with `[IsAdminOrRecruiter]`, the view admits exactly the authenticated admins and recruiters |
| Permissions.CandidateAndStaffViewsDisjoint | resume_parser/parser_app/candidate_views.py:18-19 | no request passes both the candidate view set and the application view set |
| Store.FindFirst | resume_parser/parser_app/candidate_views.py:129-130 | the position of the first element that satisfies the test, or proof that none does; the single search behind the résumé, application and e-mail lookups |
| Store.FindJob | resume_parser/parser_app/candidate_views.py:121-122 | the posting with the key, or proof that no posting has it |
| Store.FindResumeOf | resume_parser/parser_app/candidate_views.py:129-130 | the user's résumé, or proof that the user has none |
| Store.FindApplicationById | resume_parser/parser_app/application_views.py:16 | the application with the key, or proof that none has it |
| Store.HasApplied | resume_parser/parser_app/candidate_views.py:138 | true iff an application for (posting, user) exists |
| Store.ResumesOf | resume_parser/parser_app/candidate_views.py:24 | exactly the user's résumés |
| Store.OpenJobs | resume_parser/parser_app/candidate_views.py:26 | exactly the open postings |
| Store.ApplicationsOf | resume_parser/parser_app/candidate_views.py:28 | exactly the user's applications |

## Left out

- Stats.RateSeries: the rate is exact; `round(rate, 2)` on floats and the `strftime` date
  formatting are not modelled.
- Stats.RateSeries: `timezone.now()` and the time-zone truncation of `TruncDate` are not
  modelled; today and the event days are given as integers.
- Stats.GetCandidateStats and Stats.GetRecruiterStats: the database's order among groups
  with equal counts is unspecified. The model promises only that the chosen value has
  maximal (or minimal) frequency, not which one of those the database would pick.
- Stats.GetCandidateStats: the status counts are stated to add up only when every status
  is a code. `Db.Valid()` keeps that true for every store this model builds.
- CandidateViews.Apply: the 500 branch for an exception during creation is not modelled.
  In this model, creation cannot fail.
- The French response texts of the candidate views go through `gettext`, so they are not
  modelled as strings. Outcomes are modelled by kind and HTTP code.
- CandidateViews.UploadResume: removing the previous file from disk, file storage and the
  résumé parser itself are I/O and are not modelled. The parser's output is an input.
  Re-reading the account by key before parsing is modelled as the given account.
- ApplicationViews.UpdateStatus: the status is an optional string. Non-string JSON values
  (numbers, lists, booleans) are not modelled.
- UserManager.CreateUser: e-mail normalisation is the framework's and is a parameter.
  Password hashing is reduced to whether the account has a usable password. A keyword
  the account model does not know (a `TypeError` in Django) is not modelled.
- UserManager.CreateUser: the unique e-mail constraint is modelled as an `IntegrityError`
  outcome that saves nothing.
- Models.Blog.Save: `slugify` is the framework's and is a parameter. The unique-slug
  constraint and the database save are not modelled.
- Permissions: the permission classes are checked on their own. The framework calling
  them before each view runs is not modelled.
- The other candidate actions (`my_resume`, `download`, `list_jobs`,
  `list_applications`, `perform_create`) are database reads, writes or file streaming.
  Only their querysets are modelled. The authentication views, admin views, home views,
  serializers, URL routing and the API wrappers are not part of this model.
- Concurrent requests and the database's transaction behaviour are not modelled.

## Findings

| source | as written | input that shows it | evidently intended | confidence | as-written member | corrected member |
|---|---|---|---|---|---|---|
| resume_parser/parser_app/admin_views.py:160 | `permission_classes = [IsAdmin, IsRecruiter]`, and a view admits a request only when every listed class passes | any authenticated admin: `IsRecruiter` fails, so the request is refused (likewise every recruiter) | `[IsAdminOrRecruiter]`, as in the recruiter job-posting view; `perform_create` records the requesting user as the posting's recruiter | medium, not executed | Permissions.AdminJobPostingViewAdmitsNobody | Permissions.CorrectedAdminJobPostingViewAdmitsStaff |
