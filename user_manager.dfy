/** The custom user manager: creating ordinary accounts and superusers. */
module UserManager {
  import opened Wrappers
  import opened Models
  import opened Store

  datatype ManagerError =
    | ValueError(message: string)
    | IntegrityError  // the database refuses a second account with the same e-mail

  datatype Outcome = Created(user: User) | Raised(error: ManagerError)

  const EMAIL_REQUIRED: string := "The Email field must be set"
  const STAFF_REQUIRED: string := "Superuser must have is_staff=True."
  const SUPERUSER_REQUIRED: string := "Superuser must have is_superuser=True."

  /** `not email`: the e-mail is missing (None) or empty. */
  predicate Falsy(email: Option<string>)
  {
    email.None? || email.value == ""
  }

  /** `fields.setdefault(key, value)`: adds the key only when the caller did not supply it. */
  function SetDefault(fields: map<string, FieldValue>, key: string, value: FieldValue)
    : (r: map<string, FieldValue>)
    ensures r.Keys == fields.Keys + {key}
    ensures forall k :: k in fields ==> r[k] == fields[k]
    ensures key !in fields ==> r[key] == value
  {
    if key in fields then fields else fields[key := value]
  }

  /** The value `create_superuser` ends up with for a flag: the caller's, or True. */
  function FlagAfterDefault(extra: map<string, FieldValue>, key: string): FieldValue
  {
    if key in extra then extra[key] else Bool(true)
  }

  /** The keyword fields `create_superuser` passes on: the caller's, with is_staff,
      is_superuser and role defaulted to True, True and ADMIN. */
  function SuperuserDefaults(extra: map<string, FieldValue>): map<string, FieldValue>
  {
    SetDefault(SetDefault(SetDefault(extra, "is_staff", Bool(true)), "is_superuser", Bool(true)),
               "role", Text(ADMIN))
  }

  /** The defaulting and the two flag checks of `create_superuser`, before the account is
      created: is_staff, is_superuser and role default to True, True and ADMIN, keys the
      caller supplied are kept, and any flag other than exactly True is refused, is_staff
      first. */
  method SuperuserFields(extra: map<string, FieldValue>)
    returns (r: Result<map<string, FieldValue>, ManagerError>)
    ensures FlagAfterDefault(extra, "is_staff") != Bool(true) ==>
              r == Failure(ValueError(STAFF_REQUIRED))
    ensures FlagAfterDefault(extra, "is_staff") == Bool(true) &&
            FlagAfterDefault(extra, "is_superuser") != Bool(true) ==>
              r == Failure(ValueError(SUPERUSER_REQUIRED))
    ensures r.Success? <==>
              FlagAfterDefault(extra, "is_staff") == Bool(true) &&
              FlagAfterDefault(extra, "is_superuser") == Bool(true)
    ensures r.Success? ==>
              && r.value == SuperuserDefaults(extra)
              && r.value.Keys == extra.Keys + {"is_staff", "is_superuser", "role"}
              && (forall k :: k in extra ==> r.value[k] == extra[k])
              && r.value["is_staff"] == Bool(true)
              && r.value["is_superuser"] == Bool(true)
              && ("role" !in extra ==> r.value["role"] == Text(ADMIN))
  {
    var fields := extra;
    fields := SetDefault(fields, "is_staff", Bool(true));
    fields := SetDefault(fields, "is_superuser", Bool(true));
    fields := SetDefault(fields, "role", Text(ADMIN));

    if fields["is_staff"] != Bool(true) {
      return Failure(ValueError(STAFF_REQUIRED));
    }
    if fields["is_superuser"] != Bool(true) {
      return Failure(ValueError(SUPERUSER_REQUIRED));
    }
    return Success(fields);
  }

  /** Position of the account whose e-mail is `email`, if any. */
  function FindEmail(users: seq<User>, email: string): (r: Option<nat>)
    ensures r.Some? ==> r.value < |users| && users[r.value].email == email
    ensures r.None? ==> forall i :: 0 <= i < |users| ==> users[i].email != email
  {
    FindFirst(users, (u: User) => u.email == email)
  }

  /** `create_user`: refuses a missing or empty e-mail before anything else, normalises the
      e-mail (`normalize` is the framework's normalisation, taken as given), and saves one
      new account holding the extra fields verbatim. A password of None leaves the account
      without a usable password. */
  method CreateUser(db: Db, email: Option<string>, name: string, password: Option<string>,
                    extra: map<string, FieldValue>, normalize: string -> string)
    returns (r: Outcome)
    requires db.Valid()
    modifies db`users, db`nextUserId
    ensures db.Valid()
    ensures Falsy(email) ==> r == Raised(ValueError(EMAIL_REQUIRED))
    ensures !Falsy(email) && FindEmail(old(db.users), normalize(email.value)).Some? ==>
              r == Raised(IntegrityError)
    ensures r.Raised? ==> db.users == old(db.users) && db.nextUserId == old(db.nextUserId)
    ensures !Falsy(email) && FindEmail(old(db.users), normalize(email.value)).None? ==>
              && r == Created(User(old(db.nextUserId), normalize(email.value), name, extra,
                                   password.Some?))
              && db.users == old(db.users) + [r.user]
              && db.nextUserId == old(db.nextUserId) + 1
  {
    if email.None? || email.value == "" {
      return Raised(ValueError(EMAIL_REQUIRED));
    }
    var normalized := normalize(email.value);
    if FindEmail(db.users, normalized).Some? {
      return Raised(IntegrityError);
    }
    var user := User(db.nextUserId, normalized, name, extra, password.Some?);
    db.users := db.users + [user];
    db.nextUserId := db.nextUserId + 1;
    return Created(user);
  }

  /** `create_superuser`: the flag checks come before the e-mail check; once they pass, it
      behaves as `create_user` on the defaulted fields. An account it creates is staff and
      superuser, and is an admin unless the caller chose another role. */
  method CreateSuperuser(db: Db, email: Option<string>, name: string, password: Option<string>,
                         extra: map<string, FieldValue>, normalize: string -> string)
    returns (r: Outcome)
    requires db.Valid()
    modifies db`users, db`nextUserId
    ensures db.Valid()
    ensures FlagAfterDefault(extra, "is_staff") != Bool(true) ==>
              r == Raised(ValueError(STAFF_REQUIRED))
    ensures FlagAfterDefault(extra, "is_staff") == Bool(true) &&
            FlagAfterDefault(extra, "is_superuser") != Bool(true) ==>
              r == Raised(ValueError(SUPERUSER_REQUIRED))
    ensures FlagAfterDefault(extra, "is_staff") == Bool(true) &&
            FlagAfterDefault(extra, "is_superuser") == Bool(true) && Falsy(email) ==>
              r == Raised(ValueError(EMAIL_REQUIRED))
    ensures FlagAfterDefault(extra, "is_staff") == Bool(true) &&
            FlagAfterDefault(extra, "is_superuser") == Bool(true) && !Falsy(email) &&
            FindEmail(old(db.users), normalize(email.value)).Some? ==>
              r == Raised(IntegrityError)
    ensures FlagAfterDefault(extra, "is_staff") == Bool(true) &&
            FlagAfterDefault(extra, "is_superuser") == Bool(true) && !Falsy(email) &&
            FindEmail(old(db.users), normalize(email.value)).None? ==>
              && r == Created(User(old(db.nextUserId), normalize(email.value), name,
                                   SuperuserDefaults(extra), password.Some?))
              && db.nextUserId == old(db.nextUserId) + 1
    ensures r.Raised? ==> db.users == old(db.users) && db.nextUserId == old(db.nextUserId)
    ensures r.Created? ==>
              && db.users == old(db.users) + [r.user]
              && r.user.IsStaff() == Bool(true)
              && r.user.IsSuperuser() == Bool(true)
              && (r.user.IsAdmin() <==> "role" !in extra || extra["role"] == Text(ADMIN))
              && (forall k :: k in extra ==> k in r.user.fields && r.user.fields[k] == extra[k])
  {
    var fields := SuperuserFields(extra);
    if fields.Failure? {
      return Raised(fields.error);
    }
    r := CreateUser(db, email, name, password, fields.value, normalize);
  }
}
