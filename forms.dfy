/**
 * The custom validation hooks of the application's forms (core/forms.py):
 * each returns the cleaned value unchanged or a validation error.
 */
module Forms {
  import opened Models

  datatype ValidationError = BothRoles | NoRole | FeedbackTooShort | EmailInUse

  datatype Result<T> = Ok(value: T) | Err(error: ValidationError)

  /** Feedback shorter than this many characters is refused. */
  const MinFeedbackLength: nat := 10

  /** The registration form's fields after the standard field validation. */
  datatype Registration = Registration(username: string, email: string, firstName: string, lastName: string,
                                       isStudent: bool, isTeacher: bool)

  /** A new account must take exactly one of the two roles. */
  function CleanRegistration(data: Registration): (r: Result<Registration>)
    ensures r.Ok? <==> data.isStudent != data.isTeacher
    ensures r.Ok? ==> r.value == data
    ensures data.isStudent && data.isTeacher ==> r == Err(BothRoles)
    ensures !data.isStudent && !data.isTeacher ==> r == Err(NoRole)
  {
    if data.isStudent && data.isTeacher then Err(BothRoles)
    else if !data.isStudent && !data.isTeacher then Err(NoRole)
    else Ok(data)
  }

  /** Feedback content must be at least `MinFeedbackLength` characters long. */
  function CleanContent(content: string): (r: Result<string>)
    ensures r.Ok? <==> |content| >= MinFeedbackLength
    ensures r.Ok? ==> r.value == content
    ensures r.Err? ==> r.error == FeedbackTooShort
  {
    if |content| < MinFeedbackLength then Err(FeedbackTooShort) else Ok(content)
  }

  /**
   * Whether a user other than the form's instance has the address. An
   * instance that is not saved yet has no key, and then every user counts.
   */
  function EmailTakenByOther(users: seq<User>, email: string, instancePk: Option<UserId>): (b: bool)
    ensures b <==> exists i :: 0 <= i < |users| && users[i].email == email && instancePk != Some(users[i].id)
  {
    if users == [] then false
    else if users[0].email == email && instancePk != Some(users[0].id) then true
    else
      assert forall i :: 1 <= i < |users| ==> users[i] == users[1..][i - 1];
      EmailTakenByOther(users[1..], email, instancePk)
  }

  /** The profile form refuses an address another user already has. */
  function CleanEmail(users: seq<User>, email: string, instancePk: Option<UserId>): (r: Result<string>)
    ensures r.Err? <==> exists i :: 0 <= i < |users| && users[i].email == email && instancePk != Some(users[i].id)
    ensures r.Ok? ==> r.value == email
    ensures r.Err? ==> r.error == EmailInUse
  {
    if EmailTakenByOther(users, email, instancePk) then Err(EmailInUse) else Ok(email)
  }

  /** No two users share an address. */
  predicate EmailsUnique(users: seq<User>)
  {
    forall i, j :: 0 <= i < j < |users| ==> users[i].email != users[j].email
  }

  /** A user who submits the profile form with the address they already have is not refused. */
  lemma KeepingOwnEmailIsAccepted(users: seq<User>, k: nat)
    requires EmailsUnique(users)
    requires k < |users|
    ensures CleanEmail(users, users[k].email, Some(users[k].id)) == Ok(users[k].email)
  {
    forall i | 0 <= i < |users| && users[i].email == users[k].email
      ensures i == k
    {
    }
  }

  /**
   * Without that uniqueness the form can refuse a user's unchanged address:
   * two users who both left the optional address blank.
   */
  lemma SharedBlankEmailRefused()
    ensures CleanEmail([User(1, "a", "", true, false), User(2, "b", "", true, false)], "", Some(1)) == Err(EmailInUse)
  {
    var users := [User(1, "a", "", true, false), User(2, "b", "", true, false)];
    assert users[1].email == "" && Some(1) != Some(users[1].id);
  }
}
