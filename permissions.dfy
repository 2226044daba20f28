/** The permission classes: each is a boolean function of whether the request is
    authenticated and of the user's role. A view admits a request only when every class
    in its `permission_classes` list passes. */
module Permissions {
  import opened Models

  /** The user attached to a request: anonymous, or an authenticated account. */
  datatype RequestUser = Anonymous | Authenticated(user: User)
  {
    predicate IsAuthenticated() { Authenticated? }
  }

  datatype PermissionClass = IsAdmin | IsRecruiter | IsCandidate | IsAdminOrRecruiter | Any

  /** `has_permission` of each class. */
  function HasPermission(p: PermissionClass, u: RequestUser): (ok: bool)
    ensures !u.IsAuthenticated() ==> (ok <==> p == Any)
  {
    match p
    case IsAdmin => u.IsAuthenticated() && u.user.IsAdmin()
    case IsRecruiter => u.IsAuthenticated() && u.user.IsRecruiter()
    case IsCandidate => u.IsAuthenticated() && u.user.IsCandidate()
    case IsAdminOrRecruiter => u.IsAuthenticated() && (u.user.IsAdmin() || u.user.IsRecruiter())
    case Any => true
  }

  /** A view's `permission_classes` admit a request when every class passes. */
  function Admits(classes: seq<PermissionClass>, u: RequestUser): (ok: bool)
    ensures ok <==> forall i :: 0 <= i < |classes| ==> HasPermission(classes[i], u)
  {
    if classes == [] then true
    else HasPermission(classes[0], u) && Admits(classes[1..], u)
  }

  /** `permission_classes` of the views in this application. */
  const APPLICATION_VIEWSET: seq<PermissionClass> := [IsAdminOrRecruiter]
  const CANDIDATE_VIEWSET: seq<PermissionClass> := [IsCandidate]
  const ADMIN_JOB_POSTING_VIEWSET: seq<PermissionClass> := [IsAdmin, IsRecruiter]
  /** What the admin job-posting view evidently means: admins or recruiters, as in the
      recruiter job-posting view, whose creations record the requesting user as recruiter. */
  const ADMIN_JOB_POSTING_VIEWSET_CORRECTED: seq<PermissionClass> := [IsAdminOrRecruiter]

  /** Each role class passes exactly for an authenticated account with that role,
      `IsAdminOrRecruiter` is the disjunction of two of them, and `Any` passes for everyone. */
  lemma RoleClassesMatchRoles(u: RequestUser)
    ensures HasPermission(IsAdmin, u) <==> u.Authenticated? && u.user.Role() == Text(ADMIN)
    ensures HasPermission(IsRecruiter, u) <==> u.Authenticated? && u.user.Role() == Text(RECRUITER)
    ensures HasPermission(IsCandidate, u) <==> u.Authenticated? && u.user.Role() == Text(CANDIDATE)
    ensures HasPermission(IsAdminOrRecruiter, u) <==>
              HasPermission(IsAdmin, u) || HasPermission(IsRecruiter, u)
    ensures HasPermission(Any, u)
  {
  }

  /** No user is both admin and recruiter, so a candidate never passes
      `IsAdminOrRecruiter` and the admin job-posting view, which lists both classes,
      admits nobody. */
  lemma AdminJobPostingViewAdmitsNobody(u: RequestUser)
    ensures !(HasPermission(IsAdmin, u) && HasPermission(IsRecruiter, u))
    ensures HasPermission(IsCandidate, u) ==> !HasPermission(IsAdminOrRecruiter, u)
    ensures !Admits(ADMIN_JOB_POSTING_VIEWSET, u)
  {
  }

  /** A request passes both the application view set and the candidate view set never:
      candidates cannot change an application's status, and admins and recruiters cannot
      apply. */
  lemma CandidateAndStaffViewsDisjoint(u: RequestUser)
    ensures !(Admits(APPLICATION_VIEWSET, u) && Admits(CANDIDATE_VIEWSET, u))
  {
  }

  /** The corrected admin job-posting view admits exactly the authenticated admins and
      recruiters. */
  lemma CorrectedAdminJobPostingViewAdmitsStaff(u: RequestUser)
    ensures Admits(ADMIN_JOB_POSTING_VIEWSET_CORRECTED, u) <==>
              u.Authenticated? && (u.user.Role() == Text(ADMIN) || u.user.Role() == Text(RECRUITER))
  {
  }
}
