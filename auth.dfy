/** The account actions: login, signup and deleteAccount. The identity
    provider is outside the model: each action receives the provider's
    answer as a parameter, and a successful action ends in the redirect to
    the home page. */
module AuthActions {
  import opened Common
  import opened Text
  import opened Zod
  import opened DbSchema
  import opened Storage
  import opened Images

  const InvalidEmail := "Invalid email address"
  const PasswordRequired := "Password is required"
  const NameRequired := "Display name is required"
  const PasswordTooShort := "Password must be at least 6 characters"

  /** The three form fields; a field the form did not send is `None`. */
  datatype AuthForm = AuthForm(name: Option<string>, email: Option<string>, password: Option<string>)

  /** `{ success: true }` is never returned: success is the redirect. */
  datatype AuthResult =
    | Redirected(path: string)
    | AuthFailed(error: Option<string>, fieldErrors: map<string, string>)
    | InsertThrew

  /** `z.email(message)`: a missing field and a malformed address both
      carry the schema's own message. */
  function EmailIssues(email: Option<string>): (issues: seq<Issue>)
    ensures issues == [] <==> email.Some? && IsEmail(email.value)
    ensures issues != [] ==> issues == [Issue("email", InvalidEmail)]
  {
    if email.Some? && IsEmail(email.value) then [] else [Issue("email", InvalidEmail)]
  }

  /** `z.string().min(lo, message)` on a field that may be missing. */
  function RequiredMinIssues(path: string, s: Option<string>, lo: nat, message: string): (issues: seq<Issue>)
    ensures issues == [] <==> s.Some? && lo <= Utf16Length(s.value)
    ensures s.None? ==> issues == [Issue(path, ExpectedStringMessage)]
    ensures s.Some? && Utf16Length(s.value) < lo ==> issues == [Issue(path, message)]
  {
    if s.None? then [Issue(path, ExpectedStringMessage)] else MinLengthIssues(path, s.value, lo, message)
  }

  /** `loginSchema`: email, then password. */
  function LoginIssues(form: AuthForm): (issues: seq<Issue>)
    ensures issues == [] <==>
      form.email.Some? && IsEmail(form.email.value) && form.password.Some? && form.password.value != ""
    ensures forall i :: 0 <= i < |issues| ==> issues[i].path in {"email", "password"}
  {
    EmailIssues(form.email) + RequiredMinIssues("password", form.password, 1, PasswordRequired)
  }

  /** `signupSchema`: name, email, then a password of at least six characters. */
  function SignupIssues(form: AuthForm): (issues: seq<Issue>)
    ensures issues == [] <==>
      && form.name.Some? && form.name.value != ""
      && form.email.Some? && IsEmail(form.email.value)
      && form.password.Some? && Utf16Length(form.password.value) >= 6
    ensures forall i :: 0 <= i < |issues| ==> issues[i].path in {"name", "email", "password"}
  {
    RequiredMinIssues("name", form.name, 1, NameRequired)
      + EmailIssues(form.email)
      + RequiredMinIssues("password", form.password, 6, PasswordTooShort)
  }

  /** The field-error record built from a list of issues, one issue at a
      time: a field takes an issue's message unless it already holds a
      non-empty one. */
  function FieldErrorsOf(issues: seq<Issue>): map<string, string>
    decreases |issues|
  {
    if issues == [] then map[]
    else
      var m := FieldErrorsOf(issues[..|issues| - 1]);
      var issue := issues[|issues| - 1];
      if issue.path !in m || m[issue.path] == "" then m[issue.path := issue.message] else m
  }

  /** The record has an entry for exactly the fields some issue is about. */
  lemma {:induction false} FieldErrorKeys(issues: seq<Issue>)
    ensures forall f :: f in FieldErrorsOf(issues) <==> exists i :: 0 <= i < |issues| && issues[i].path == f
  {
    if issues != [] {
      var init := issues[..|issues| - 1];
      FieldErrorKeys(init);
      forall f | exists i :: 0 <= i < |issues| && issues[i].path == f
        ensures f in FieldErrorsOf(issues)
      {
        var i :| 0 <= i < |issues| && issues[i].path == f;
        if i < |issues| - 1 {
          assert init[i] == issues[i];
        }
      }
      forall f | f in FieldErrorsOf(issues)
        ensures exists i :: 0 <= i < |issues| && issues[i].path == f
      {
        if f in FieldErrorsOf(init) {
          var i :| 0 <= i < |init| && init[i].path == f;
          assert issues[i].path == f;
        } else {
          assert issues[|issues| - 1].path == f;
        }
      }
    }
  }

  /** The first issue about a field wins when its message is not empty:
      later issues about the same field do not overwrite it. */
  lemma {:induction false} FirstMessageWins(issues: seq<Issue>, j: nat)
    requires j < |issues| && issues[j].message != ""
    requires forall i :: 0 <= i < j ==> issues[i].path != issues[j].path
    ensures issues[j].path in FieldErrorsOf(issues)
    ensures FieldErrorsOf(issues)[issues[j].path] == issues[j].message
    decreases |issues|
  {
    var init := issues[..|issues| - 1];
    if j < |issues| - 1 {
      FirstMessageWins(init, j);
    } else {
      FieldErrorKeys(init);
      forall i | 0 <= i < |init|
        ensures init[i].path != issues[j].path
      {
        assert init[i] == issues[i];
      }
    }
  }

  /** The loop of `login` and `signup` that turns the issues into field errors. */
  method CollectFieldErrors(issues: seq<Issue>) returns (errors: map<string, string>)
    ensures errors == FieldErrorsOf(issues)
  {
    errors := map[];
    for n := 0 to |issues|
      invariant errors == FieldErrorsOf(issues[..n])
    {
      var issue := issues[n];
      assert issues[..n + 1][..n] == issues[..n];
      if issue.path !in errors || errors[issue.path] == "" {
        errors := errors[issue.path := issue.message];
      }
    }
    assert issues[..|issues|] == issues;
  }

  /** login: a form the schema rejects comes back as field errors without
      reaching the provider; otherwise the provider's error is returned,
      and without one the caller is sent home. */
  method Login(form: AuthForm, providerError: Option<string>) returns (r: AuthResult)
    ensures LoginIssues(form) != [] ==> r == AuthFailed(None, FieldErrorsOf(LoginIssues(form)))
    ensures LoginIssues(form) == [] && providerError.Some? ==> r == AuthFailed(Some(providerError.value), map[])
    ensures r.Redirected? <==> LoginIssues(form) == [] && providerError.None?
    ensures r.Redirected? ==> r.path == "/"
  {
    var issues := LoginIssues(form);
    if issues != [] {
      var fieldErrors := CollectFieldErrors(issues);
      return AuthFailed(None, fieldErrors);
    }
    if providerError.Some? {
      return AuthFailed(Some(providerError.value), map[]);
    }
    return Redirected("/");
  }

  /** What `signUp` answers: an error, or a result that may carry the new user's id. */
  datatype SignUpAnswer = SignUpError(message: string) | SignedUp(user: Option<Id>)

  /** Some user already has this address (the unique email column). */
  predicate EmailTaken(users: map<Id, User>, email: string) {
    exists k :: k in users && users[k].email == email
  }

  /** signup: after the provider accepts, the user's row is inserted when
      the provider returned a user. The insert is not guarded: a taken id or
      address makes the action throw. */
  method Signup(db: Database, form: AuthForm, answer: SignUpAnswer, now: Timestamp) returns (r: AuthResult)
    requires db.Valid()
    modifies db`users
    ensures db.Valid()
    ensures SignupIssues(form) != [] ==> r == AuthFailed(None, FieldErrorsOf(SignupIssues(form)))
    ensures SignupIssues(form) == [] && answer.SignUpError? ==> r == AuthFailed(Some(answer.message), map[])
    ensures SignupIssues(form) == [] && answer == SignedUp(None) ==> r == Redirected("/")
    ensures SignupIssues(form) == [] && answer.SignedUp? && answer.user.Some? ==>
      var id := answer.user.value;
      && (r == InsertThrew <==> id in old(db.users) || EmailTaken(old(db.users), form.email.value))
      && (r != InsertThrew ==>
            r == Redirected("/")
            && db.users == old(db.users)[id := User(id, form.email.value, Some(form.name.value), now, now)])
    ensures r != Redirected("/") || answer == SignedUp(None) ==> db.users == old(db.users)
  {
    var issues := SignupIssues(form);
    if issues != [] {
      var fieldErrors := CollectFieldErrors(issues);
      return AuthFailed(None, fieldErrors);
    }
    if answer.SignUpError? {
      return AuthFailed(Some(answer.message), map[]);
    }
    if answer.user.Some? {
      var id, email := answer.user.value, form.email.value;
      if id in db.users || EmailTaken(db.users, email) {
        return InsertThrew;
      }
      var user := User(id, email, Some(form.name.value), now, now);
      NewUserKeepsValid(db.users, user, db.todos);
      NewUserKeepsValid(db.users, user, db.notes);
      NewUserKeepsValid(db.users, user, db.photos);
      NewUserKeepsValid(db.users, user, db.foodPhotos);
      NewUserKeepsValid(db.users, user, db.foodReviews);
      NewUserKeepsValid(db.users, user, db.pokemon);
      NewUserKeepsValid(db.users, user, db.pokemonReviews);
      db.users := db.users[id := user];
    }
    return Redirected("/");
  }

  /** A user with a fresh id and a fresh address keeps the users table and
      every table that refers to it valid. */
  lemma NewUserKeepsValid<D>(users: map<Id, User>, user: User, t: Table<D>)
    requires UsersValid(users) && TableValid(t, users)
    requires user.id !in users && !EmailTaken(users, user.email)
    ensures UsersValid(users[user.id := user]) && TableValid(t, users[user.id := user])
  {
  }

  /** deleteAccount: the user's row goes first, with everything that
      cascades from it; an error from the provider's admin deletion is
      returned after that. The stored objects of the deleted photos stay in
      the bucket. */
  method DeleteAccount(db: Database, store: BlobStore, caller: Option<Id>, adminError: Option<string>)
    returns (r: ActionResult)
    requires db.Valid() && Linked(db, store)
    modifies db
    ensures db.Valid() && Linked(db, store)
    ensures caller.None? ==> r == Failure(NotAuthenticated) && unchanged(db)
    ensures caller.Some? ==> (r.Success? <==> adminError.None?)
    ensures caller.Some? && adminError.Some? ==> r == Failure(adminError.value)
    ensures caller.Some? ==>
      var uid := caller.value;
      && db.users == old(db.users) - {uid}
      && db.todos == WithoutOwner(old(db.todos), uid)
      && db.notes == WithoutOwner(old(db.notes), uid)
      && db.photos == WithoutOwner(old(db.photos), uid)
      && db.foodPhotos == WithoutOwner(old(db.foodPhotos), uid)
      && db.pokemon == WithoutOwner(old(db.pokemon), uid)
      && db.foodReviews == WithParentIn(WithoutOwner(old(db.foodReviews), uid), db.foodPhotos)
      && db.pokemonReviews == WithParentIn(WithoutOwner(old(db.pokemonReviews), uid), db.pokemon)
  {
    if caller.None? {
      return Failure(NotAuthenticated);
    }
    CascadeKeepsLinked(db.photos, db.foodPhotos, store.objects, caller.value);
    db.DeleteUser(caller.value);
    if adminError.Some? {
      return Failure(adminError.value);
    }
    return Success;
  }
}
