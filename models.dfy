/** The entities of the job board (users with a role, résumés, job postings,
    applications with a three-code status, blog posts) and the rules attached to them. */
module Models {
  import opened Wrappers

  /** Primary keys of the database tables. */
  type Id = nat

  /** A calendar day, counted in days from an arbitrary epoch. */
  type Day = int

  /** A Python value given as a keyword argument to the user manager. `Bool(true)` is
      the one value that is `True`; `Int(1)` is equal to it but is not it. */
  datatype FieldValue = Bool(b: bool) | Text(s: string) | Int(i: int) | Null

  // User roles

  const ADMIN: string := "ADMIN"
  const RECRUITER: string := "RECRUITER"
  const CANDIDATE: string := "CANDIDATE"

  /** A user account. `fields` holds the extra keyword fields the account was created with
      (`role`, `is_staff`, `is_superuser`, ...); a field not given takes the model default. */
  datatype User = User(id: Id, email: string, name: string,
                       fields: map<string, FieldValue>, hasUsablePassword: bool)
  {
    /** The `role` column, CANDIDATE by default. */
    function Role(): FieldValue
    {
      if "role" in fields then fields["role"] else Text(CANDIDATE)
    }

    function IsStaff(): FieldValue
    {
      if "is_staff" in fields then fields["is_staff"] else Bool(false)
    }

    function IsSuperuser(): FieldValue
    {
      if "is_superuser" in fields then fields["is_superuser"] else Bool(false)
    }

    predicate IsAdmin() { Role() == Text(ADMIN) }

    predicate IsRecruiter() { Role() == Text(RECRUITER) }

    predicate IsCandidate() { Role() == Text(CANDIDATE) }
  }

  /** At most one role predicate holds for a user, and a user created without a role is
      a candidate. */
  lemma RolePredicatesExclusive(u: User)
    ensures !(u.IsAdmin() && u.IsRecruiter())
    ensures !(u.IsAdmin() && u.IsCandidate())
    ensures !(u.IsRecruiter() && u.IsCandidate())
    ensures "role" !in u.fields ==> u.IsCandidate() && !u.IsAdmin() && !u.IsRecruiter()
  {
  }

  // Application status

  const PENDING: string := "PE"
  const ACCEPTED: string := "AC"
  const REJECTED: string := "RE"

  const STATUS_CHOICES: seq<(string, string)> :=
    [(PENDING, "Pending"), (ACCEPTED, "Accepted"), (REJECTED, "Rejected")]

  /** The keys of `dict(choices)`. */
  function ChoiceKeys(choices: seq<(string, string)>): (keys: set<string>)
    ensures forall k :: k in keys <==> exists i :: 0 <= i < |choices| && choices[i].0 == k
  {
    if choices == [] then {}
    else {choices[0].0} + ChoiceKeys(choices[1..])
  }

  /** `s in dict(Application.STATUS_CHOICES)` */
  predicate IsStatusCode(s: string)
  {
    s in ChoiceKeys(STATUS_CHOICES)
  }

  /** The status vocabulary is exactly the three two-letter codes; the display names are
      not codes. */
  lemma StatusCodesAreExactlyThree(s: string)
    ensures IsStatusCode(s) <==> s == PENDING || s == ACCEPTED || s == REJECTED
    ensures !IsStatusCode("PENDING") && !IsStatusCode("ACCEPTED") && !IsStatusCode("REJECTED")
    ensures !IsStatusCode("")
  {
    assert STATUS_CHOICES[0].0 == PENDING;
    assert STATUS_CHOICES[1].0 == ACCEPTED;
    assert STATUS_CHOICES[2].0 == REJECTED;
  }

  // Records

  datatype Resume = Resume(id: Id, user: Option<Id>, file: Option<string>,
                           name: Option<string>, email: Option<string>,
                           mobileNumber: Option<string>, education: Option<string>,
                           skills: Option<string>, experience: Option<string>,
                           uploadedOn: Day)

  /** A job posting; `open` is the `status` column (True while the offer is open). */
  datatype Job = Job(id: Id, recruiter: Id, title: string, category: Option<string>,
                     city: Option<string>, open: bool)

  datatype Application = Application(id: Id, job: Id, candidate: Id, resume: Id,
                                     appliedOn: Day, status: string)

  /** A newly created application carries the default status. */
  function NewApplication(id: Id, job: Id, candidate: Id, resume: Id, today: Day): (a: Application)
    ensures a.status == PENDING && IsStatusCode(a.status)
    ensures a.job == job && a.candidate == candidate && a.resume == resume
    ensures a.id == id && a.appliedOn == today
  {
    StatusCodesAreExactlyThree(PENDING);
    Application(id, job, candidate, resume, today, PENDING)
  }

  /** A blog post; `save` derives the slug from the title when none is set. */
  class Blog {
    var title: string
    var content: string
    var slug: string

    constructor (title: string, content: string, slug: string)
      ensures this.title == title && this.content == content && this.slug == slug
    {
      this.title := title;
      this.content := content;
      this.slug := slug;
    }

    /** `slugify` is the framework's title-to-slug conversion, taken as given. */
    method Save(slugify: string -> string)
      modifies this`slug
      ensures old(slug) != "" ==> slug == old(slug)
      ensures old(slug) == "" ==> slug == slugify(title)
    {
      if slug == "" {
        slug := slugify(title);
      }
    }
  }
}
