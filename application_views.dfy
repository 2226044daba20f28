/** The application view set used by admins and recruiters: the guarded overwrite of an
    application's status. */
module ApplicationViews {
  import opened Wrappers
  import opened Models
  import opened Store

  const STATUS_REQUIRED: string := "status is required"
  const INVALID_STATUS: string := "Invalid status"

  datatype UpdateOutcome =
    | NotFound                             // no application with that key
    | StatusRequired                       // `status` missing or empty
    | InvalidStatus                        // `status` is not one of the three codes
    | Updated(application: Application)    // the saved application, serialised back
  {
    function HttpStatus(): nat
    {
      match this
      case NotFound => 404
      case StatusRequired => 400
      case InvalidStatus => 400
      case Updated(_) => 200
    }

    function ErrorMessage(): Option<string>
    {
      match this
      case StatusRequired => Some(STATUS_REQUIRED)
      case InvalidStatus => Some(INVALID_STATUS)
      case _ => None
    }
  }

  /** Replacing the status of one application by a valid code keeps every table
      constraint: statuses stay codes and the (job, candidate) pairs are untouched. */
  lemma SetStatusKeepsValid(apps: seq<Application>, next: Id, i: nat, s: string)
    requires ApplicationsValid(apps, next) && i < |apps| && IsStatusCode(s)
    ensures ApplicationsValid(apps[i := apps[i].(status := s)], next)
  {
  }

  /** `update_status(pk)`: the missing-value check comes before the validity check, and a
      valid code is written verbatim whatever the current status is. Nothing else in the
      database changes. */
  method UpdateStatus(db: Db, pk: Id, status: Option<string>) returns (r: UpdateOutcome)
    requires db.Valid()
    modifies db`applications
    ensures db.Valid()
    ensures FindApplicationById(old(db.applications), pk).None? ==> r == NotFound
    ensures FindApplicationById(old(db.applications), pk).Some? ==>
              && ((status.None? || status.value == "") ==> r == StatusRequired)
              && (status.Some? && status.value != "" && !IsStatusCode(status.value) ==>
                    r == InvalidStatus)
              && (status.Some? && IsStatusCode(status.value) ==>
                    var i := FindApplicationById(old(db.applications), pk).value;
                    r == Updated(old(db.applications)[i].(status := status.value)) &&
                    db.applications == old(db.applications)[i := r.application])
    ensures !r.Updated? ==> db.applications == old(db.applications)
  {
    var found := FindApplicationById(db.applications, pk);
    if found.None? {
      return NotFound;
    }
    var i := found.value;

    if status.None? || status.value == "" {
      return StatusRequired;
    }
    if !IsStatusCode(status.value) {
      return InvalidStatus;
    }

    var application := db.applications[i].(status := status.value);
    SetStatusKeepsValid(db.applications, db.nextApplicationId, i, status.value);
    db.applications := db.applications[i := application];
    return Updated(application);
  }

  /** From a pending application, "XX", an empty value and a missing value are refused
      and the application is left as it was; an unknown key is not found. */
  method RefusedTransitionScenario()
  {
    StatusCodesAreExactlyThree("XX");
    var app := NewApplication(1, 7, 3, 5, 0);
    var db := new Db([]);
    db.applications, db.nextApplicationId := [app], 2;
    assert FindApplicationById([app], 1) == Some(0);
    assert FindApplicationById([app], 2) == None;

    var r := UpdateStatus(db, 1, Some("XX"));
    assert r == InvalidStatus && db.applications == [app];
    r := UpdateStatus(db, 1, Some(""));
    assert r == StatusRequired && r.ErrorMessage() == Some(STATUS_REQUIRED);
    r := UpdateStatus(db, 1, None);
    assert r == StatusRequired && r.HttpStatus() == 400;
    r := UpdateStatus(db, 2, Some("AC"));
    assert r == NotFound && db.applications == [app];
  }

  /** A pending application set to "AC" becomes accepted; setting it to "AC" again
      succeeds and changes nothing. */
  method AcceptTwiceScenario()
  {
    StatusCodesAreExactlyThree("AC");
    var app := NewApplication(1, 7, 3, 5, 0);
    var db := new Db([]);
    db.applications, db.nextApplicationId := [app], 2;
    assert FindApplicationById([app], 1) == Some(0);

    var r := UpdateStatus(db, 1, Some("AC"));
    assert r.Updated? && r.application.status == ACCEPTED && r.HttpStatus() == 200;
    var accepted := db.applications;
    assert FindApplicationById(accepted, 1) == Some(0);
    r := UpdateStatus(db, 1, Some("AC"));
    assert r.Updated? && db.applications == accepted;
  }
}
