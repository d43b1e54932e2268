/** The User handlers: registration, login, logout and refresh around a
    single stored refresh token per user, password and account changes, and
    the channel profile. Issued tokens, upload results and the verified token
    subject are parameters; a password check is equality with the stored
    password. */
module UserController {
  import opened Common
  import opened Entities
  import SubscriptionController

  /** Every stored user sits under its own id. */
  ghost predicate KeyedById(users: map<Id, User>) {
    forall k | k in users :: users[k].id == k
  }

  /** No two users share a username or an email. */
  ghost predicate UniqueLogins(users: map<Id, User>) {
    forall a, b | a in users && b in users && a != b ::
      users[a].username != users[b].username && users[a].email != users[b].email
  }

  /** A user as responses show it: without password and refresh token. */
  datatype PublicUser = PublicUser(id: Id, username: string, email: string, fullname: string, avatar: string, coverImage: string)

  function PublicView(u: User): (p: PublicUser)
    ensures p.id == u.id && p.username == u.username && p.email == u.email
  {
    PublicUser(u.id, u.username, u.email, u.fullname, u.avatar, u.coverImage)
  }

  /** A user as `.select("-password")` returns it: the refresh-token slot included. */
  datatype AccountUser = AccountUser(id: Id, username: string, email: string, fullname: string, avatar: string,
                                     coverImage: string, refreshToken: Option<string>)

  function AccountView(u: User): AccountUser {
    AccountUser(u.id, u.username, u.email, u.fullname, u.avatar, u.coverImage, u.refreshToken)
  }

  /** `.select("-password")` hides the password and nothing else, while
      `.select("-password -refreshToken")` also hides the session slot. */
  lemma SelectionsHide(u: User, v: User)
    ensures AccountView(u) == AccountView(v) <==> u.(password := v.password) == v
    ensures PublicView(u) == PublicView(v) <==> u.(password := v.password, refreshToken := v.refreshToken) == v
  {
  }

  const SOMETHING_WRONG := "something went wrong"
  const UNAUTHORIZED_REQUEST := "unauthorized request"
  /** What reading `url` off a failed (null) upload throws. */
  const NULL_URL_READ := "Cannot read properties of null (reading 'url')"

  /** Whether refereshAccessToken accepts a token: it is present, its subject
      is a stored user, and it equals that user's stored refresh token. */
  predicate RefreshAccepted(users: map<Id, User>, incoming: Option<string>, subject: Option<Id>) {
    Truthy(incoming) && subject.Some? && subject.value in users
    && users[subject.value].refreshToken == Some(incoming.value)
  }

  /** The users after one user's refresh-token slot is overwritten. */
  function WithSession(users: map<Id, User>, k: Id, slot: Option<string>): (r: map<Id, User>)
    requires k in users
    ensures k in r && r[k].refreshToken == slot
    ensures r[k].(refreshToken := users[k].refreshToken) == users[k]
    ensures forall j | j in users && j != k :: j in r && r[j] == users[j]
    ensures r.Keys == users.Keys
  {
    users[k := users[k].(refreshToken := slot)]
  }

  /** After a session is rotated to `newToken`, exactly `newToken` is accepted for
      that user: any earlier token is refused. */
  lemma RotationRejectsOldToken(users: map<Id, User>, k: Id, newToken: string, presented: string)
    requires k in users && newToken != ""
    ensures RefreshAccepted(WithSession(users, k, Some(newToken)), Some(presented), Some(k)) <==> presented == newToken
  {
  }

  /** After a session is cleared, no token is accepted for that user. */
  lemma ClearedSessionRejectsAll(users: map<Id, User>, k: Id, presented: Option<string>)
    requires k in users
    ensures !RefreshAccepted(WithSession(users, k, None), presented, Some(k))
  {
  }

  /** A registration request body. */
  datatype RegisterForm = RegisterForm(fullname: Option<string>, username: Option<string>, email: Option<string>, password: Option<string>)

  /** The blank check as intended: some field is missing or blank. */
  predicate HasBlankField(form: RegisterForm) {
    IsBlankText(form.fullname) || IsBlankText(form.username) || IsBlankText(form.email) || IsBlankText(form.password)
  }

  /** What a callback hands back to `some`: nothing (undefined), or a boolean. */
  datatype Returned = NoValue | Value(b: bool)

  /** `fields.some(cb)`: whether some call of `cb` returns a truthy value. */
  function AnyField(fields: seq<Option<string>>, cb: Option<string> -> Returned): (r: bool)
    ensures r <==> exists i | 0 <= i < |fields| :: cb(fields[i]) == Value(true)
  {
    if fields == [] then false
    else cb(fields[0]) == Value(true) || AnyField(fields[1..], cb)
  }

  /** The callback as written, `(field) => { field?.trim() === "" }`: its
      braced body evaluates the comparison and returns nothing. */
  function BracedCallback(field: Option<string>): Returned {
    NoValue
  }

  /** The callback with the comparison returned: a missing field compares
      undefined with "" and yields false. */
  function ReturningCallback(field: Option<string>): Returned {
    Value(field.Some? && Trim(field.value) == "")
  }

  /** The four fields in the order the handler lists them. */
  function FormFields(form: RegisterForm): seq<Option<string>> {
    [form.fullname, form.username, form.email, form.password]
  }

  /** The blank check as written never fires, whatever the fields. Returning
      the comparison would make it fire exactly on a present blank field; the
      corrected check also rejects a missing one. */
  lemma BlankCheckNeverFires(form: RegisterForm)
    ensures !AnyField(FormFields(form), BracedCallback)
    ensures AnyField(FormFields(form), ReturningCallback) ==> HasBlankField(form)
    ensures form.fullname.Some? && form.username.Some? && form.email.Some? && form.password.Some? ==>
      (AnyField(FormFields(form), ReturningCallback) <==> HasBlankField(form))
  {
    AnyOfFour(form.fullname, form.username, form.email, form.password, BracedCallback);
    AnyOfFour(form.fullname, form.username, form.email, form.password, ReturningCallback);
    ReturnedMeansBlank(form.fullname);
    ReturnedMeansBlank(form.username);
    ReturnedMeansBlank(form.email);
    ReturnedMeansBlank(form.password);
  }

  /** `some` over four values asks each in turn. */
  lemma AnyOfFour(a: Option<string>, b: Option<string>, c: Option<string>, d: Option<string>,
                  cb: Option<string> -> Returned)
    ensures AnyField([a, b, c, d], cb) <==>
      cb(a) == Value(true) || cb(b) == Value(true) || cb(c) == Value(true) || cb(d) == Value(true)
  {
    var f := [a, b, c, d];
    assert f[0] == a && f[1] == b && f[2] == c && f[3] == d;
    if AnyField(f, cb) {
      var i :| 0 <= i < |f| && cb(f[i]) == Value(true);
      assert i == 0 || i == 1 || i == 2 || i == 3;
    }
  }

  /** The returning callback fires only on a blank field, and on every
      present one. */
  lemma ReturnedMeansBlank(field: Option<string>)
    ensures ReturningCallback(field) == Value(true) ==> IsBlankText(field)
    ensures field.Some? ==> (ReturningCallback(field) == Value(true) <==> IsBlankText(field))
  {
    assert Trim("") == "";
  }

  /** `findOne({ $or: [{ username }, { email }] })` as written: the raw
      username, although usernames are stored lower-cased. */
  predicate DuplicateAsWritten(users: map<Id, User>, username: string, email: string) {
    exists k | k in users :: users[k].username == username || users[k].email == email
  }

  /** The duplicate check as intended: against the username as it will be stored. */
  predicate Duplicate(users: map<Id, User>, username: string, email: string) {
    exists k | k in users :: users[k].username == ToLower(username) || users[k].email == email
  }

  /** The check as written lets "Alice" register beside an existing "alice",
      and the store then holds two users named "alice". */
  lemma DuplicateCheckMissesCase(users: map<Id, User>, k: Id, newId: Id)
    requires users == map[k := User(k, "alice", "a@x", "A", "p", "av", "", None)]
    requires newId != k
    ensures !DuplicateAsWritten(users, "Alice", "b@x")
    ensures Duplicate(users, "Alice", "b@x")
    ensures !UniqueLogins(users[newId := User(newId, ToLower("Alice"), "b@x", "B", "q", "av", "", None)])
  {
    assert ToLower("Alice")[0] == 'a';
    assert ToLower("Alice") == "alice";
    assert users[k].username == ToLower("Alice");
    var added := users[newId := User(newId, ToLower("Alice"), "b@x", "B", "q", "av", "", None)];
    assert k in added && newId in added && added[k].username == added[newId].username;
  }

  /** Adding a user whose lower-cased username and email pass the duplicate
      check keeps usernames and emails unique. */
  lemma RegisterKeepsUniqueLogins(users: map<Id, User>, u: User, username: string)
    requires u.id !in users && u.username == ToLower(username)
    requires !Duplicate(users, username, u.email)
    ensures UniqueLogins(users) ==> UniqueLogins(users[u.id := u])
  {
  }

  /** As written, `req.files?.avatar[0]?.path` throws for a multipart
      registration that carries only a cover image, where the corrected
      lookup finds no avatar path (and registerUser answers 400). */
  lemma CoverOnlyRegistrationThrowsAsWritten(path: string)
    ensures var files := Fields(map["coverImage" := [path]]);
            FirstPathAsWritten(files, "avatar") == Throws && FirstPath(files, "avatar") == None
  {
  }

  /** `coverImage.url || ""` as written, with the cover upload's outcome:
      without a cover image the upload result is null and reading `url` throws. */
  function CoverImageAsWritten(upload: Option<string>): (r: Response<string>)
    ensures upload.None? <==> r == Err(SERVER_ERROR, NULL_URL_READ)
  {
    if upload.None? then Err(SERVER_ERROR, NULL_URL_READ)
    else Ok(CREATED, OrElse(upload, ""))
  }

  /** As written, every registration without a cover image fails with 500,
      where `coverImage?.url || ""` stores an empty cover. */
  lemma NoCoverFailsAsWritten()
    ensures CoverImageAsWritten(None).Err? && CoverImageAsWritten(None).status == SERVER_ERROR
    ensures OrElse(None, "") == ""
  {
  }

  /** The object generateAccessAndRefereshToken resolves to: `{ accessToken, refreshToken }`. */
  function TokenObject(access: string, refresh: string): map<string, string> {
    map["accessToken" := access, "refreshToken" := refresh]
  }

  /** The text `res.cookie` stores for a value: undefined becomes "undefined". */
  function CookieText(v: Option<string>): string {
    if v.Some? then v.value else "undefined"
  }

  /** The tokens refereshAccessToken sends as written: it destructures
      `{ accessToken, newrefreshToken }` from the helper's result, which has
      no `newrefreshToken`. */
  function RefreshReplyAsWritten(access: string, refresh: string): (r: (Option<string>, Option<string>))
    ensures r.0 == Some(access) && r.1.None?
  {
    var tokens := TokenObject(access, refresh);
    (Lookup(tokens, "accessToken"), Lookup(tokens, "newrefreshToken"))
  }

  /** As written, the session cannot be refreshed twice: loginUser's
      `{ refreshToken }` receives the new token, but refereshAccessToken sends
      none, and the cookie it sets ("undefined") does not match the rotated slot. */
  lemma RefreshAsWrittenStrandsSession(users: map<Id, User>, k: Id, access: string, newToken: string)
    requires k in users && newToken != "undefined" && newToken != ""
    ensures Lookup(TokenObject(access, newToken), "refreshToken") == Some(newToken)
    ensures var cookie := CookieText(RefreshReplyAsWritten(access, newToken).1);
            && cookie == "undefined"
            && !RefreshAccepted(WithSession(users, k, Some(newToken)), Some(cookie), Some(k))
    ensures RefreshAccepted(WithSession(users, k, Some(newToken)), Some(newToken), Some(k))
  {
  }

  /** logoutUser's `findByIdAndUpdate` with the value it gives `refreshToken`
      in `$set` (`None` for undefined, `Some(None)` for null): only the
      caller's slot can change. */
  function LogoutUpdate(users: map<Id, User>, k: Id, supplied: Option<Option<string>>): (r: map<Id, User>)
    ensures r.Keys == users.Keys
    ensures forall j | j in users && j != k :: r[j] == users[j]
    ensures k in users ==> r[k].(refreshToken := users[k].refreshToken) == users[k]
  {
    if k in users then users[k := users[k].(refreshToken := ValueOr(supplied, users[k].refreshToken))]
    else users
  }

  /** As written (`refreshToken: undefined`), the key is dropped from `$set`
      and a token accepted before logout is still accepted after it; `null`
      would have cleared the slot. */
  lemma LogoutAsWrittenKeepsSession(users: map<Id, User>, incoming: Option<string>, subject: Option<Id>, k: Id)
    requires k in users
    ensures RefreshAccepted(users, incoming, subject) ==> RefreshAccepted(LogoutUpdate(users, k, None), incoming, subject)
    ensures LogoutUpdate(users, k, Some(None)) == WithSession(users, k, None)
  {
  }

  /** A channel profile: the user with its subscriber and subscription counts
      and whether the caller subscribes to it. */
  datatype ChannelProfile = ChannelProfile(
    user: PublicUser, subscriberCount: nat, channelsSubscribedToCount: nat, isSubscribed: bool)

  /** The users whose stored username is the lower-cased parameter. */
  function UsersNamed(users: map<Id, User>, username: string): set<Id> {
    set k | k in users && users[k].username == ToLower(username)
  }

  const IN_NEEDS_ARRAY := "$in requires an array as a second argument, found: missing"

  /** getUserChannelProfile as written: after the 400 and 404 gates, `$in`
      reads `$subscribers.subscriber`, a field the pipeline never produces
      (its lookup is named `subscriber`), and the database rejects the
      pipeline, so no profile is ever returned. */
  function GetUserChannelProfileAsWritten(users: map<Id, User>, username: string): (r: Response<ChannelProfile>)
    ensures Trim(username) == "" ==> r == Err(BAD_REQUEST, "username is required")
    ensures Trim(username) != "" && UsersNamed(users, username) == {} ==> r == Err(NOT_FOUND, "Channel not found")
    ensures !r.Ok?
  {
    if Trim(username) == "" then Err(BAD_REQUEST, "username is required")
    else if UsersNamed(users, username) == {} then Err(NOT_FOUND, "Channel not found")
    else Err(SERVER_ERROR, IN_NEEDS_ARRAY)
  }

  /** getUserChannelProfile as intended, reading the Subscription collection:
      400 for a blank username, 404 when no user has it, otherwise one such
      user with its subscriber and subscription counts and whether the caller
      subscribes to it. Nothing is changed. */
  method GetUserChannelProfile(users: map<Id, User>, subs: set<Subscription>, username: string, viewer: Option<Id>)
    returns (r: Response<ChannelProfile>)
    requires KeyedById(users)
    ensures Trim(username) == "" ==> r == Err(BAD_REQUEST, "username is required")
    ensures Trim(username) != "" && UsersNamed(users, username) == {} ==> r == Err(NOT_FOUND, "Channel not found")
    ensures r.Ok? <==> Trim(username) != "" && UsersNamed(users, username) != {}
    ensures r.Ok? ==>
      var k := r.data.user.id;
      && r.status == OK
      && k in UsersNamed(users, username)
      && r.data.user == PublicView(users[k])
      && r.data.subscriberCount == |SubscriptionController.SubscribersOf(subs, k)|
      && r.data.channelsSubscribedToCount == |SubscriptionController.SubscriptionsBy(subs, k)|
      && (r.data.isSubscribed <==> viewer.Some? && SubscriptionController.IsSubscribed(subs, k, viewer.value))
  {
    if Trim(username) == "" {
      return Err(BAD_REQUEST, "username is required");
    }
    var named := UsersNamed(users, username);
    if named == {} {
      return Err(NOT_FOUND, "Channel not found");
    }
    var k :| k in named;
    var subscribed := viewer.Some? && SubscriptionController.IsSubscribed(subs, k, viewer.value);
    r := Ok(OK, ChannelProfile(PublicView(users[k]),
                               |SubscriptionController.SubscribersOf(subs, k)|,
                               |SubscriptionController.SubscriptionsBy(subs, k)|,
                               subscribed));
  }

  /** What a successful login returns. */
  datatype Session = Session(user: PublicUser, accessToken: string, refreshToken: string)

  /** Whether a user answers a login's `$or: [{ username }, { email }]`. */
  predicate LoginMatches(u: User, username: Option<string>, email: Option<string>) {
    (username.Some? && u.username == username.value) || (email.Some? && u.email == email.value)
  }

  /** With unique usernames, a login by username finds exactly the user
      registered under it, so the password is checked against that user's. */
  lemma LoginByUsernameIsUnique(users: map<Id, User>, name: string, k: Id)
    requires UniqueLogins(users) && k in users && users[k].username == name
    ensures forall j | j in users && LoginMatches(users[j], Some(name), None) :: j == k
  {
  }

  /** The User collection, changed in place by registration, the session
      handlers and the account handlers. */
  class UserStore {
    var users: map<Id, User>

    ghost predicate Valid()
      reads this
    {
      KeyedById(users)
    }

    constructor ()
      ensures Valid() && users == map[]
    {
      users := map[];
    }

    /** generateAccessAndRefereshToken: 500 when the user is absent; otherwise
        the user's single refresh-token slot holds exactly the new refresh
        token, and the pair is returned. */
    method IssueTokens(userId: Id, access: string, refresh: string) returns (r: Response<(string, string)>)
      requires Valid()
      modifies this
      ensures Valid()
      ensures userId !in old(users) ==> r == Err(SERVER_ERROR, SOMETHING_WRONG) && users == old(users)
      ensures userId in old(users) ==>
        r == Ok(OK, (access, refresh)) && users == WithSession(old(users), userId, Some(refresh))
    {
      if userId !in users {
        return Err(SERVER_ERROR, SOMETHING_WRONG);
      }
      users := users[userId := users[userId].(refreshToken := Some(refresh))];
      r := Ok(OK, (access, refresh));
    }

    /** registerUser with the intended checks: 400 on a missing or blank
        field, 409 when the username (as it will be stored) or the email is
        taken, 400 without an avatar file (read without throwing) or when its
        upload failed (null); otherwise a
        new user with the lower-cased username and an empty cover when none
        was uploaded. Registration keeps usernames and emails unique. */
    method RegisterUser(form: RegisterForm, files: Files, avatarUpload: Option<string>, coverUpload: Option<string>, newId: Id)
      returns (r: Response<PublicUser>)
      requires Valid()
      requires newId !in users
      modifies this
      ensures Valid()
      ensures r.Err? ==> users == old(users)
      ensures HasBlankField(form) ==> r == Err(BAD_REQUEST, "All fields are required")
      ensures !HasBlankField(form) && Duplicate(old(users), form.username.value, form.email.value) ==>
        r == Err(CONFLICT, "user with email or username already exists")
      ensures !HasBlankField(form) && !Duplicate(old(users), form.username.value, form.email.value) ==>
        if !Truthy(FirstPath(files, "avatar")) || avatarUpload.None? then r == Err(BAD_REQUEST, "Avatar is required")
        else
          var u := User(newId, ToLower(form.username.value), form.email.value, form.fullname.value,
                        form.password.value, avatarUpload.value, OrElse(coverUpload, ""), None);
          r == Ok(CREATED, PublicView(u)) && users == old(users)[newId := u]
      ensures UniqueLogins(old(users)) ==> UniqueLogins(users)
    {
      if HasBlankField(form) {
        return Err(BAD_REQUEST, "All fields are required");
      }
      var username := form.username.value;
      var email := form.email.value;
      if Duplicate(users, username, email) {
        return Err(CONFLICT, "user with email or username already exists");
      }
      var avatarPath := FirstPath(files, "avatar");
      if !Truthy(avatarPath) {
        return Err(BAD_REQUEST, "Avatar is required");
      }
      if avatarUpload.None? {
        return Err(BAD_REQUEST, "Avatar is required");
      }
      var u := User(newId, ToLower(username), email, form.fullname.value, form.password.value,
                    avatarUpload.value, OrElse(coverUpload, ""), None);
      RegisterKeepsUniqueLogins(users, u, username);
      users := users[newId := u];
      r := Ok(CREATED, PublicView(u));
    }

    /** loginUser: 400 without a username and an email, 404 when no user
        matches either, 401 when the matched user's password differs;
        otherwise that user's session slot holds exactly the new refresh token.
        Failures leave every slot as it was. */
    method LoginUser(username: Option<string>, email: Option<string>, password: string, access: string, refresh: string)
      returns (r: Response<Session>)
      requires Valid()
      modifies this
      ensures Valid()
      ensures r.Err? ==> users == old(users)
      ensures !Truthy(username) && !Truthy(email) ==> r == Err(BAD_REQUEST, "username or email is required")
      ensures (Truthy(username) || Truthy(email)) && (forall k | k in old(users) :: !LoginMatches(old(users)[k], username, email)) ==>
        r == Err(NOT_FOUND, "user does not exist")
      ensures (Truthy(username) || Truthy(email)) && (exists k | k in old(users) :: LoginMatches(old(users)[k], username, email)) ==>
        r == Err(UNAUTHORIZED, "invalid password") || r.Ok?
      ensures (forall k | k in old(users) && LoginMatches(old(users)[k], username, email) :: old(users)[k].password != password) ==>
        !r.Ok?
      ensures (Truthy(username) || Truthy(email)) && (exists k | k in old(users) :: LoginMatches(old(users)[k], username, email))
              && (forall k | k in old(users) && LoginMatches(old(users)[k], username, email) :: old(users)[k].password == password) ==>
        r.Ok?
      ensures r.Ok? ==>
        var k := r.data.user.id;
        && r.status == OK
        && k in old(users) && LoginMatches(old(users)[k], username, email)
        && old(users)[k].password == password
        && users == WithSession(old(users), k, Some(refresh))
        && r.data == Session(PublicView(old(users)[k]), access, refresh)
    {
      if !Truthy(username) && !Truthy(email) {
        return Err(BAD_REQUEST, "username or email is required");
      }
      if !exists k | k in users :: LoginMatches(users[k], username, email) {
        return Err(NOT_FOUND, "user does not exist");
      }
      var k :| k in users && LoginMatches(users[k], username, email);
      if users[k].password != password {
        return Err(UNAUTHORIZED, "invalid password");
      }
      var issued := IssueTokens(k, access, refresh);
      r := Ok(OK, Session(PublicView(users[k]), access, refresh));
    }

    /** logoutUser as intended: the caller's refresh-token slot is emptied, so
        no token is accepted for the caller afterwards. */
    method LogoutUser(actor: Id) returns (r: Response<()>)
      requires Valid()
      modifies this
      ensures Valid()
      ensures r == Ok(OK, ())
      ensures actor in old(users) ==> users == WithSession(old(users), actor, None)
      ensures actor !in old(users) ==> users == old(users)
      ensures forall t: Option<string> :: !RefreshAccepted(users, t, Some(actor))
    {
      if actor in users {
        users := users[actor := users[actor].(refreshToken := None)];
      }
      r := Ok(OK, ());
    }

    /** refereshAccessToken with the new refresh token returned: 401 unless
        the presented token is the one stored for its subject (with the
        token library's message when verification fails); otherwise the slot
        is rotated to the new token and the pair is returned. */
    method RefreshAccessToken(incoming: Option<string>, subject: Option<Id>, verifyError: string, access: string, refresh: string)
      returns (r: Response<(string, string)>)
      requires Valid()
      modifies this
      ensures Valid()
      ensures r.Err? ==> users == old(users) && r.status == UNAUTHORIZED
      ensures r.Ok? <==> RefreshAccepted(old(users), incoming, subject)
      ensures !Truthy(incoming) ==> r == Err(UNAUTHORIZED, UNAUTHORIZED_REQUEST)
      ensures Truthy(incoming) && subject.None? ==> r == Err(UNAUTHORIZED, OrElse(Some(verifyError), "invalid refresh Token"))
      ensures r.Ok? ==> r == Ok(OK, (access, refresh)) && users == WithSession(old(users), subject.value, Some(refresh))
    {
      if !Truthy(incoming) {
        return Err(UNAUTHORIZED, UNAUTHORIZED_REQUEST);
      }
      if subject.None? {
        return Err(UNAUTHORIZED, OrElse(Some(verifyError), "invalid refresh Token"));
      }
      var k := subject.value;
      if k !in users || users[k].refreshToken != Some(incoming.value) {
        return Err(UNAUTHORIZED, UNAUTHORIZED_REQUEST);
      }
      var issued := IssueTokens(k, access, refresh);
      r := Ok(OK, (access, refresh));
    }

    /** changeCurrentPassword: 500 when the caller's user is gone (the lookup
        yields null), 400 on a wrong old password with nothing changed;
        otherwise the new password replaces it and nothing else changes. */
    method ChangeCurrentPassword(actor: Id, oldPassword: string, newPassword: string) returns (r: Response<()>)
      requires Valid()
      modifies this
      ensures Valid()
      ensures r.Err? ==> users == old(users)
      ensures actor !in old(users) ==> r == Err(SERVER_ERROR, "Cannot read properties of null (reading 'isPasswordCorrect')")
      ensures actor in old(users) && old(users)[actor].password != oldPassword ==> r == Err(BAD_REQUEST, "Invalid old password")
      ensures actor in old(users) && old(users)[actor].password == oldPassword ==>
        r == Ok(OK, ()) && users == old(users)[actor := old(users)[actor].(password := newPassword)]
    {
      if actor !in users {
        return Err(SERVER_ERROR, "Cannot read properties of null (reading 'isPasswordCorrect')");
      }
      if users[actor].password != oldPassword {
        return Err(BAD_REQUEST, "Invalid old password");
      }
      users := users[actor := users[actor].(password := newPassword)];
      r := Ok(OK, ());
    }

    /** updateAccoutDetails: 400 unless both fullname and email are present
        and non-empty; otherwise those two fields of the caller change and
        nothing else (a caller whose user is gone changes nothing). */
    method UpdateAccountDetails(actor: Id, fullname: Option<string>, email: Option<string>) returns (r: Response<()>)
      requires Valid()
      modifies this
      ensures Valid()
      ensures !Truthy(fullname) || !Truthy(email) ==>
        r == Err(BAD_REQUEST, "fullname and email are required") && users == old(users)
      ensures Truthy(fullname) && Truthy(email) ==>
        && r == Ok(OK, ())
        && (actor in old(users) ==> users == old(users)[actor := old(users)[actor].(fullname := fullname.value, email := email.value)])
        && (actor !in old(users) ==> users == old(users))
    {
      if !Truthy(fullname) || !Truthy(email) {
        return Err(BAD_REQUEST, "fullname and email are required");
      }
      if actor in users {
        users := users[actor := users[actor].(fullname := fullname.value, email := email.value)];
      }
      r := Ok(OK, ());
    }
      /** updateUserAvatar: 400 without an uploaded file; a failed upload (null)
        cannot have its `url` read and gives 500; an upload without a url gives
        400; otherwise the caller's avatar becomes the new url and nothing else
        changes, and the updated user without its password (null when the
        caller is gone) is returned. */
    method UpdateUserAvatar(actor: Id, filePath: Option<string>, upload: Option<string>)
      returns (r: Response<Option<AccountUser>>)
      requires Valid()
      modifies this
      ensures Valid()
      ensures r.Err? ==> users == old(users)
      ensures !Truthy(filePath) ==> r == Err(BAD_REQUEST, "avatar is required")
      ensures Truthy(filePath) && upload.None? ==> r == Err(SERVER_ERROR, NULL_URL_READ)
      ensures Truthy(filePath) && upload == Some("") ==> r == Err(BAD_REQUEST, "avatar upload failed")
      ensures Truthy(filePath) && Truthy(upload) ==>
        && r.Ok? && r.status == OK
        && (actor in old(users) ==>
              var u := old(users)[actor].(avatar := upload.value);
              users == old(users)[actor := u] && r.data == Some(AccountView(u)))
        && (actor !in old(users) ==> users == old(users) && r.data == None)
    {
      if !Truthy(filePath) {
        return Err(BAD_REQUEST, "avatar is required");
      }
      if upload.None? {
        return Err(SERVER_ERROR, NULL_URL_READ);
      }
      if upload.value == "" {
        return Err(BAD_REQUEST, "avatar upload failed");
      }
      if actor !in users {
        return Ok(OK, None);
      }
      var u := users[actor].(avatar := upload.value);
      users := users[actor := u];
      r := Ok(OK, Some(AccountView(u)));
    }

    /** updateUserCoverImage: the same gates as updateUserAvatar with its own
        messages; otherwise the caller's cover image becomes the new url. */
    method UpdateUserCoverImage(actor: Id, filePath: Option<string>, upload: Option<string>)
      returns (r: Response<Option<AccountUser>>)
      requires Valid()
      modifies this
      ensures Valid()
      ensures r.Err? ==> users == old(users)
      ensures !Truthy(filePath) ==> r == Err(BAD_REQUEST, "CoverImage is required")
      ensures Truthy(filePath) && upload.None? ==> r == Err(SERVER_ERROR, NULL_URL_READ)
      ensures Truthy(filePath) && upload == Some("") ==> r == Err(BAD_REQUEST, "CoverImage upload failed")
      ensures Truthy(filePath) && Truthy(upload) ==>
        && r.Ok? && r.status == OK
        && (actor in old(users) ==>
              var u := old(users)[actor].(coverImage := upload.value);
              users == old(users)[actor := u] && r.data == Some(AccountView(u)))
        && (actor !in old(users) ==> users == old(users) && r.data == None)
    {
      if !Truthy(filePath) {
        return Err(BAD_REQUEST, "CoverImage is required");
      }
      if upload.None? {
        return Err(SERVER_ERROR, NULL_URL_READ);
      }
      if upload.value == "" {
        return Err(BAD_REQUEST, "CoverImage upload failed");
      }
      if actor !in users {
        return Ok(OK, None);
      }
      var u := users[actor].(coverImage := upload.value);
      users := users[actor := u];
      r := Ok(OK, Some(AccountView(u)));
    }
  }
}
