/** Dashboard statistics: the daily rate series of résumé uploads and of job
    applications over a trailing window, and the summary counts shown to admins,
    recruiters and candidates. */
module Stats {
  import opened Wrappers
  import opened Seqs
  import opened Models
  import opened Store

  // The window

  /** Length in days of the trailing window a period asks for; an unknown period falls
      back to a week. */
  function WindowDays(period: string): (w: nat)
    ensures w == 7 || w == 30 || w == 365
  {
    if period == "week" then 7
    else if period == "month" then 30
    else if period == "year" then 365
    else 7
  }

  lemma WindowLengths(period: string)
    ensures WindowDays("week") == 7 && WindowDays("month") == 30 && WindowDays("year") == 365
    ensures period != "week" && period != "month" && period != "year" ==> WindowDays(period) == 7
  {
  }

  // Counting events by day

  /** Number of events dated strictly before day `d`. */
  function CountBefore(events: seq<Day>, d: Day): (n: nat)
    ensures n <= |events|
  {
    if events == [] then 0
    else (if events[0] < d then 1 else 0) + CountBefore(events[1..], d)
  }

  /** The events up to and including `d` are those before `d` and those on `d`. */
  lemma {:induction false} CountBeforeStep(events: seq<Day>, d: Day)
    ensures CountBefore(events, d + 1) == CountBefore(events, d) + Count(events, d)
  {
    if events != [] {
      CountBeforeStep(events[1..], d);
    }
  }

  /** The running total never decreases. */
  lemma {:induction false} CountBeforeMonotone(events: seq<Day>, d1: Day, d2: Day)
    requires d1 <= d2
    ensures CountBefore(events, d1) <= CountBefore(events, d2)
  {
    if events != [] {
      CountBeforeMonotone(events[1..], d1, d2);
    }
  }

  lemma {:induction false} CountBeforeAppend(a: seq<Day>, b: seq<Day>, d: Day)
    ensures CountBefore(a + b, d) == CountBefore(a, d) + CountBefore(b, d)
  {
    if a == [] {
      assert a + b == b;
    } else {
      assert (a + b)[1..] == a[1..] + b;
      CountBeforeAppend(a[1..], b, d);
    }
  }

  lemma {:induction false} CountBeforeNone(events: seq<Day>, d: Day)
    requires forall i :: 0 <= i < |events| ==> events[i] >= d
    ensures CountBefore(events, d) == 0
  {
    if events != [] {
      CountBeforeNone(events[1..], d);
    }
  }

  /** Per-day counts of the events on or after `start`: the grouped query turned into a
      dictionary. A day missing from it has no events. */
  function DailyCounts(events: seq<Day>, start: Day): (m: map<Day, nat>)
    ensures forall d :: d >= start && d in m ==> m[d] == Count(events, d)
    ensures forall d :: d >= start && d !in m ==> Count(events, d) == 0
  {
    map d | d in events && d >= start :: Count(events, d)
  }

  // The rate, defined from the counts

  /** The rate of day `d`: the share, as a percentage, of all events up to and including
      `d` that happened on `d`; 0 when there are none at all. */
  function RateOn(events: seq<Day>, d: Day): real
  {
    var cumulative := CountBefore(events, d + 1);
    if cumulative == 0 then 0.0
    else (Count(events, d) as real / cumulative as real) * 100.0
  }

  datatype DailyRate = DailyRate(day: Day, rate: real)

  /** The rate series of a window: one entry per day from `today - (W - 1)` to `today`,
      in order, seeded with the events before the window and adding each day's events to
      the running total before dividing. */
  method RateSeries(events: seq<Day>, period: string, today: Day) returns (rates: seq<DailyRate>)
    ensures |rates| == WindowDays(period)
    ensures rates[0].day == today - (WindowDays(period) - 1)
    ensures rates[|rates| - 1].day == today
    ensures forall k :: 0 <= k < |rates| ==>
              rates[k] == DailyRate(today - (WindowDays(period) - 1) + k,
                                    RateOn(events, today - (WindowDays(period) - 1) + k))
  {
    var w := WindowDays(period);
    var start := today - (w - 1);
    var dateRange := seq(today - start + 1, x => start + x);
    var counts := DailyCounts(events, start);
    var cumulative := CountBefore(events, start);

    rates := [];
    for i := 0 to |dateRange|
      invariant |rates| == i
      invariant cumulative == CountBefore(events, start + i)
      invariant forall k :: 0 <= k < i ==> rates[k] == DailyRate(start + k, RateOn(events, start + k))
    {
      var current := dateRange[i];
      var dailyCount := if current in counts then counts[current] else 0;
      CountBeforeStep(events, current);
      cumulative := cumulative + dailyCount;
      var rate := if cumulative > 0 then (dailyCount as real / cumulative as real) * 100.0 else 0.0;
      rates := rates + [DailyRate(current, rate)];
    }
  }

  /** Days on which the résumés were uploaded. */
  function UploadDays(resumes: seq<Resume>): (days: seq<Day>)
    ensures |days| == |resumes|
    ensures forall i :: 0 <= i < |resumes| ==> days[i] == resumes[i].uploadedOn
  {
    seq(|resumes|, i requires 0 <= i < |resumes| => resumes[i].uploadedOn)
  }

  /** Days on which the applications were made. */
  function ApplicationDays(apps: seq<Application>): (days: seq<Day>)
    ensures |days| == |apps|
    ensures forall i :: 0 <= i < |apps| ==> days[i] == apps[i].appliedOn
  {
    seq(|apps|, i requires 0 <= i < |apps| => apps[i].appliedOn)
  }

  /** `get_cv_registration_rate`: the rate series of résumé uploads. */
  method CvRegistrationRate(resumes: seq<Resume>, period: string, today: Day)
    returns (rates: seq<DailyRate>)
    ensures |rates| == WindowDays(period)
    ensures forall k :: 0 <= k < |rates| ==>
              rates[k] == DailyRate(today - (WindowDays(period) - 1) + k,
                                    RateOn(UploadDays(resumes), today - (WindowDays(period) - 1) + k))
  {
    rates := RateSeries(UploadDays(resumes), period, today);
  }

  /** `get_application_rate`: the same series over the days of the applications. */
  method ApplicationRate(apps: seq<Application>, period: string, today: Day)
    returns (rates: seq<DailyRate>)
    ensures |rates| == WindowDays(period)
    ensures forall k :: 0 <= k < |rates| ==>
              rates[k] == DailyRate(today - (WindowDays(period) - 1) + k,
                                    RateOn(ApplicationDays(apps), today - (WindowDays(period) - 1) + k))
  {
    rates := RateSeries(ApplicationDays(apps), period, today);
  }

  // What the rate definition guarantees

  /** The day's events are among the events up to that day. */
  lemma DailyWithinCumulative(events: seq<Day>, d: Day)
    ensures Count(events, d) <= CountBefore(events, d + 1)
  {
    CountBeforeStep(events, d);
  }

  /** The share, as a percentage, of a part of a positive total lies between 0 and 100,
      is 0 exactly for an empty part and 100 exactly for the whole. */
  lemma PercentOfTotal(part: nat, total: nat)
    requires 0 < total && part <= total
    ensures 0.0 <= (part as real / total as real) * 100.0 <= 100.0
    ensures (part as real / total as real) * 100.0 == 0.0 <==> part == 0
    ensures (part as real / total as real) * 100.0 == 100.0 <==> part == total
  {
    var q := part as real / total as real;
    assert q * total as real == part as real;
    if part < total {
      assert q * total as real < 1.0 * total as real;
    }
  }

  /** Every rate lies between 0 and 100. */
  lemma RateWithinBounds(events: seq<Day>, d: Day)
    ensures 0.0 <= RateOn(events, d) <= 100.0
  {
    DailyWithinCumulative(events, d);
    var cumulative := CountBefore(events, d + 1);
    if cumulative > 0 {
      PercentOfTotal(Count(events, d), cumulative);
    }
  }

  /** The rate is 0 exactly on days without events. */
  lemma RateZeroIffNoEvents(events: seq<Day>, d: Day)
    ensures RateOn(events, d) == 0.0 <==> Count(events, d) == 0
  {
    DailyWithinCumulative(events, d);
    var cumulative := CountBefore(events, d + 1);
    if cumulative > 0 {
      PercentOfTotal(Count(events, d), cumulative);
    }
  }

  /** The rate is 100 exactly on the first day that has any events at all. */
  lemma RateFullIffFirstEvents(events: seq<Day>, d: Day)
    ensures RateOn(events, d) == 100.0 <==> Count(events, d) > 0 && CountBefore(events, d) == 0
  {
    CountBeforeStep(events, d);
    var daily, cumulative := Count(events, d), CountBefore(events, d + 1);
    if cumulative > 0 {
      PercentOfTotal(daily, cumulative);
    }
  }

  /** With no events, every rate of the series is 0. */
  lemma NoEventsNoRates(d: Day)
    ensures RateOn([], d) == 0.0
  {
  }

  /** Events dated after `today` change no rate of a window that ends on `today`. */
  lemma LaterEventsIgnored(events: seq<Day>, later: seq<Day>, today: Day, d: Day)
    requires d <= today
    requires forall i :: 0 <= i < |later| ==> later[i] > today
    ensures RateOn(events + later, d) == RateOn(events, d)
  {
    CountBeforeAppend(events, later, d + 1);
    CountBeforeNone(later, d + 1);
    CountAppend(events, later, d);
    assert d !in later;
  }

  /** Two days with events and one without: 2 events on day 0, none on day 1 and 3 on
      day 2 give rates 100 (2 of 2), 0 (0 of 2) and 60 (3 of 5). */
  lemma ThreeDayScenario()
    ensures RateOn([0, 0, 2, 2, 2], 0) == 100.0
    ensures RateOn([0, 0, 2, 2, 2], 1) == 0.0
    ensures RateOn([0, 0, 2, 2, 2], 2) == 60.0
  {
    var ev := [0, 0, 2, 2, 2];
    assert ev[1..] == [0, 2, 2, 2] && ev[2..] == [2, 2, 2] && ev[3..] == [2, 2] && ev[4..] == [2];
    assert Count(ev, 0) == 2 && CountBefore(ev, 1) == 2;
    assert Count(ev, 1) == 0;
    assert Count(ev, 2) == 3 && CountBefore(ev, 3) == 5;
  }

  // Admin statistics

  datatype AdminStats = AdminStats(recruitersCount: nat, candidatesCount: nat,
                                   resumesCount: nat, offersCount: nat, adminsCount: nat,
                                   applicationsCount: nat)

  /** A row of `values('role').annotate(count=Count('id'))`. */
  datatype RoleCount = RoleCount(role: FieldValue, count: nat)

  function Roles(users: seq<User>): (roles: seq<FieldValue>)
    ensures |roles| == |users|
    ensures forall i :: 0 <= i < |users| ==> roles[i] == users[i].Role()
  {
    seq(|users|, i requires 0 <= i < |users| => users[i].Role())
  }

  /** The users grouped by role: one row per role present, with its number of users. */
  function UserCountsByRole(users: seq<User>): (rows: seq<RoleCount>)
    ensures forall k :: 0 <= k < |rows| ==> rows[k].count == Count(Roles(users), rows[k].role)
    ensures forall k :: 0 <= k < |rows| ==> rows[k].role in Roles(users)
    ensures forall role :: role in Roles(users) ==> exists k :: 0 <= k < |rows| && rows[k].role == role
    ensures forall i, j :: 0 <= i < j < |rows| ==> rows[i].role != rows[j].role
  {
    var roles := Roles(users);
    var groups := Distinct(roles);
    var rows := seq(|groups|, k requires 0 <= k < |groups| => RoleCount(groups[k], Count(roles, groups[k])));
    assert forall role :: role in roles ==> rows[IndexIn(groups, role)].role == role;
    rows
  }

  /** Position of an element of `xs`. */
  function IndexIn<T(==)>(xs: seq<T>, x: T): (i: nat)
    requires x in xs
    ensures i < |xs| && xs[i] == x
  {
    if xs[0] == x then 0 else 1 + IndexIn(xs[1..], x)
  }

  /** The count of the last row for `role`, or 0 when no row is for it: what a loop that
      overwrites a counter on every matching row leaves behind. */
  function LastCountFor(rows: seq<RoleCount>, role: FieldValue): nat
  {
    if rows == [] then 0
    else if rows[|rows| - 1].role == role then rows[|rows| - 1].count
    else LastCountFor(rows[..|rows| - 1], role)
  }

  /** When every row carries the number of `roles` equal to its role, the last row for a
      role carries that number, and no row means 0. */
  lemma {:induction false} LastCountForGroups(rows: seq<RoleCount>, roles: seq<FieldValue>, role: FieldValue)
    requires forall k :: 0 <= k < |rows| ==> rows[k].count == Count(roles, rows[k].role)
    ensures LastCountFor(rows, role) ==
              if exists k :: 0 <= k < |rows| && rows[k].role == role then Count(roles, role) else 0
  {
    if rows != [] {
      var prefix := rows[..|rows| - 1];
      LastCountForGroups(prefix, roles, role);
      assert forall k :: 0 <= k < |prefix| ==> prefix[k] == rows[k];
    }
  }

  /** `get_admin_stats`: each role count starts at 0 and is overwritten by the grouped row
      for that role, rows for any other role are ignored, and the other three counts are
      the sizes of the tables. So each role count is the number of users with that role. */
  method GetAdminStats(users: seq<User>, resumes: seq<Resume>, jobs: seq<Job>,
                       apps: seq<Application>) returns (stats: AdminStats)
    ensures stats.recruitersCount == Count(Roles(users), Text(RECRUITER))
    ensures stats.candidatesCount == Count(Roles(users), Text(CANDIDATE))
    ensures stats.adminsCount == Count(Roles(users), Text(ADMIN))
    ensures stats.resumesCount == |resumes| && stats.offersCount == |jobs|
    ensures stats.applicationsCount == |apps|
  {
    var userCounts := UserCountsByRole(users);
    stats := AdminStats(0, 0, |resumes|, |jobs|, 0, |apps|);
    for i := 0 to |userCounts|
      invariant stats.resumesCount == |resumes| && stats.offersCount == |jobs|
      invariant stats.applicationsCount == |apps|
      invariant stats.recruitersCount == LastCountFor(userCounts[..i], Text(RECRUITER))
      invariant stats.candidatesCount == LastCountFor(userCounts[..i], Text(CANDIDATE))
      invariant stats.adminsCount == LastCountFor(userCounts[..i], Text(ADMIN))
    {
      var row := userCounts[i];
      assert userCounts[..i + 1][..i] == userCounts[..i];
      if row.role == Text(RECRUITER) {
        stats := stats.(recruitersCount := row.count);
      } else if row.role == Text(CANDIDATE) {
        stats := stats.(candidatesCount := row.count);
      } else if row.role == Text(ADMIN) {
        stats := stats.(adminsCount := row.count);
      }
    }
    assert userCounts[..|userCounts|] == userCounts;
    LastCountForGroups(userCounts, Roles(users), Text(RECRUITER));
    LastCountForGroups(userCounts, Roles(users), Text(CANDIDATE));
    LastCountForGroups(userCounts, Roles(users), Text(ADMIN));
  }

  /** The three role counts never exceed the number of users, and add up to it when every
      user has one of the three roles. */
  lemma RoleCountsBounded(users: seq<User>)
    ensures Count(Roles(users), Text(ADMIN)) + Count(Roles(users), Text(RECRUITER)) +
            Count(Roles(users), Text(CANDIDATE)) <= |users|
    ensures (forall i :: 0 <= i < |users| ==> users[i].IsAdmin() || users[i].IsRecruiter() || users[i].IsCandidate()) ==>
              Count(Roles(users), Text(ADMIN)) + Count(Roles(users), Text(RECRUITER)) +
              Count(Roles(users), Text(CANDIDATE)) == |users|
  {
    CountThree(Roles(users), Text(ADMIN), Text(RECRUITER), Text(CANDIDATE));
  }

  // Candidate statistics

  const NO_APPLICATION_YET: string := "Aucune candidature n'a été soumise pour le moment"

  datatype CandidateStats = CandidateStats(applicationsCount: nat, acceptedCount: nat,
                                           rejectedCount: nat, pendingCount: nat,
                                           mostAppliedJobCategory: Option<string>,
                                           mostAppliedJobCity: Option<string>)

  function Statuses(apps: seq<Application>): (s: seq<string>)
    ensures |s| == |apps|
    ensures forall i :: 0 <= i < |apps| ==> s[i] == apps[i].status
  {
    seq(|apps|, i requires 0 <= i < |apps| => apps[i].status)
  }

  /** `job__category` of each application (None when the posting has no category). */
  function Categories(jobs: seq<Job>, apps: seq<Application>): (c: seq<Option<string>>)
    ensures |c| == |apps|
  {
    seq(|apps|, i requires 0 <= i < |apps| =>
      var job := FindJob(jobs, apps[i].job); if job.Some? then job.value.category else None)
  }

  /** `job__city` of each application. */
  function Cities(jobs: seq<Job>, apps: seq<Application>): (c: seq<Option<string>>)
    ensures |c| == |apps|
  {
    seq(|apps|, i requires 0 <= i < |apps| =>
      var job := FindJob(jobs, apps[i].job); if job.Some? then job.value.city else None)
  }

  /** The accepted, rejected and pending counts add up to the number of applications
      whenever every status is one of the three codes. */
  lemma StatusCountsPartition(apps: seq<Application>)
    ensures (forall i :: 0 <= i < |apps| ==> IsStatusCode(apps[i].status)) ==>
              Count(Statuses(apps), ACCEPTED) + Count(Statuses(apps), REJECTED) +
              Count(Statuses(apps), PENDING) == |apps|
  {
    forall s | IsStatusCode(s) ensures s == ACCEPTED || s == REJECTED || s == PENDING {
      StatusCodesAreExactlyThree(s);
    }
    CountThree(Statuses(apps), ACCEPTED, REJECTED, PENDING);
  }

  /** `get_candidate_stats(user)`: the candidate's application counts, by status, and the
      most frequent category and city among the postings applied to, or a placeholder
      text when there is no application. */
  function GetCandidateStats(user: Id, jobs: seq<Job>, apps: seq<Application>): (s: CandidateStats)
    ensures s.applicationsCount == |ApplicationsOf(apps, user)|
    ensures s.acceptedCount == Count(Statuses(ApplicationsOf(apps, user)), ACCEPTED)
    ensures s.rejectedCount == Count(Statuses(ApplicationsOf(apps, user)), REJECTED)
    ensures s.pendingCount == Count(Statuses(ApplicationsOf(apps, user)), PENDING)
    ensures StatusesValid(apps) ==>
              s.acceptedCount + s.rejectedCount + s.pendingCount == s.applicationsCount
    ensures s.applicationsCount == 0 ==>
              s.mostAppliedJobCategory == Some(NO_APPLICATION_YET) &&
              s.mostAppliedJobCity == Some(NO_APPLICATION_YET)
    ensures s.applicationsCount > 0 ==>
              var mine := ApplicationsOf(apps, user);
              && s.mostAppliedJobCategory in Categories(jobs, mine)
              && (forall c :: c in Categories(jobs, mine) ==>
                    Count(Categories(jobs, mine), c) <= Count(Categories(jobs, mine), s.mostAppliedJobCategory))
              && s.mostAppliedJobCity in Cities(jobs, mine)
              && (forall c :: c in Cities(jobs, mine) ==>
                    Count(Cities(jobs, mine), c) <= Count(Cities(jobs, mine), s.mostAppliedJobCity))
  {
    var mine := ApplicationsOf(apps, user);
    var statuses := Statuses(mine);
    StatusCountsPartition(mine);
    assert StatusesValid(apps) ==> forall i :: 0 <= i < |mine| ==> IsStatusCode(mine[i].status) by {
      if StatusesValid(apps) {
        forall i | 0 <= i < |mine| ensures IsStatusCode(mine[i].status) {
          assert mine[i] in apps;
        }
      }
    }
    CandidateStats(
      |mine|, Count(statuses, ACCEPTED), Count(statuses, REJECTED), Count(statuses, PENDING),
      if mine == [] then Some(NO_APPLICATION_YET) else MostFrequent(Categories(jobs, mine)),
      if mine == [] then Some(NO_APPLICATION_YET) else MostFrequent(Cities(jobs, mine)))
  }

  /** Every status is one of the three codes. */
  predicate StatusesValid(apps: seq<Application>)
  {
    forall i :: 0 <= i < |apps| ==> IsStatusCode(apps[i].status)
  }

  // Recruiter statistics

  const NO_CANDIDATE_YET: string := "Aucun candidat n'a postulé pour le moment"

  datatype RecruiterStats = RecruiterStats(offersCount: nat, applicationsCount: nat,
                                           openOffersCount: nat, closedOffersCount: nat,
                                           mostPopularJobTitle: string,
                                           leastPopularJobTitle: string)

  /** `JobPosting.objects.filter(recruiter=user)` */
  function JobsOf(jobs: seq<Job>, user: Id): (r: seq<Job>)
    ensures forall x :: x in r <==> x in jobs && x.recruiter == user
  {
    if jobs == [] then []
    else if jobs[0].recruiter == user then [jobs[0]] + JobsOf(jobs[1..], user)
    else JobsOf(jobs[1..], user)
  }

  function OpenFlags(jobs: seq<Job>): (flags: seq<bool>)
    ensures |flags| == |jobs|
    ensures forall i :: 0 <= i < |jobs| ==> flags[i] == jobs[i].open
  {
    seq(|jobs|, i requires 0 <= i < |jobs| => jobs[i].open)
  }

  /** `Application.objects.filter(job__recruiter=user)` */
  function ApplicationsTo(jobs: seq<Job>, apps: seq<Application>, user: Id): (r: seq<Application>)
    ensures forall x :: x in r <==>
              x in apps && FindJob(jobs, x.job).Some? && FindJob(jobs, x.job).value.recruiter == user
  {
    if apps == [] then []
    else
      var job := FindJob(jobs, apps[0].job);
      if job.Some? && job.value.recruiter == user then [apps[0]] + ApplicationsTo(jobs, apps[1..], user)
      else ApplicationsTo(jobs, apps[1..], user)
  }

  /** `job__title` of each application. */
  function Titles(jobs: seq<Job>, apps: seq<Application>): (t: seq<string>)
    ensures |t| == |apps|
  {
    seq(|apps|, i requires 0 <= i < |apps| =>
      var job := FindJob(jobs, apps[i].job); if job.Some? then job.value.title else "")
  }

  /** `get_recruiter_stats(user)`: the recruiter's postings, split into open and closed,
      the applications they received, and the titles applied to most and least, or the
      same placeholder for both when there is no application. */
  function GetRecruiterStats(user: Id, jobs: seq<Job>, apps: seq<Application>): (s: RecruiterStats)
    ensures s.offersCount == |JobsOf(jobs, user)|
    ensures s.applicationsCount == |ApplicationsTo(jobs, apps, user)|
    ensures s.openOffersCount == Count(OpenFlags(JobsOf(jobs, user)), true)
    ensures s.closedOffersCount == Count(OpenFlags(JobsOf(jobs, user)), false)
    ensures s.openOffersCount + s.closedOffersCount == s.offersCount
    ensures s.applicationsCount == 0 ==>
              s.mostPopularJobTitle == NO_CANDIDATE_YET && s.leastPopularJobTitle == NO_CANDIDATE_YET
    ensures s.applicationsCount > 0 ==>
              var titles := Titles(jobs, ApplicationsTo(jobs, apps, user));
              && s.mostPopularJobTitle in titles && s.leastPopularJobTitle in titles
              && (forall t :: t in titles ==>
                    Count(titles, s.leastPopularJobTitle) <= Count(titles, t) <=
                    Count(titles, s.mostPopularJobTitle))
  {
    var own := JobsOf(jobs, user);
    var received := ApplicationsTo(jobs, apps, user);
    var flags := OpenFlags(own);
    CountTwo(flags, true, false);
    var titles := Titles(jobs, received);
    RecruiterStats(
      |own|, |received|, Count(flags, true), Count(flags, false),
      if received == [] then NO_CANDIDATE_YET else MostFrequent(titles),
      if received == [] then NO_CANDIDATE_YET else LeastFrequent(titles))
  }
}
