/** The account endpoints as decision procedures: registration, logout,
    password-reset request, password-reset confirmation and password change.
    What the framework does around them is abstract: request validation
    arrives as a `Validation` value, the token generator, the refresh-token
    blacklist and the mail server as parameters, and the account table as a
    value that each endpoint returns updated. */
module AccountViews {
  import opened Wrappers
  import opened Users
  import UserSerializer

  /** Field errors as the serializer reports them, in field order. */
  type FieldErrors = seq<(string, seq<string>)>

  /** The body of a response: JSON, or the framework's error page for an
      exception that escapes the view. */
  datatype Body =
    | Message(message: string)
    | Error(error: string)
    | Errors(errors: FieldErrors)
    | UserData(id: Pk, username: Option<string>, email: string, fullName: Option<string>)
    | ErrorPage

  datatype Reply = Reply(status: nat, body: Body)

  const OK: nat := 200
  const CREATED: nat := 201
  const BAD_REQUEST: nat := 400
  const NOT_FOUND: nat := 404
  const SERVER_ERROR: nat := 500

  /** The outcome of `serializer.is_valid()`: the validated data, or the
      errors. */
  datatype Validation<T> = Valid(data: T) | Invalid(errors: FieldErrors)

  /** A reply together with the account table after the request. */
  datatype Stored = Stored(reply: Reply, accounts: Accounts)

  // ---------------------------------------------------------------------
  // Registration
  // ---------------------------------------------------------------------

  /** The serialized user: the password fields are write-only and never
      appear in it. */
  function Serialize(pk: Pk, user: Account): (b: Body)
    ensures b.UserData? && b.id == pk && b.username == user.username
    ensures b.email == user.email && b.fullName == user.fullName
  {
    UserData(pk, user.username, user.email, user.fullName)
  }

  /** `RegisterView.post`: valid data creates the user (username generation
      included), sets the password once more and answers 201 with the
      serialized user; when the generated username is empty, `create_user`
      raises and the request ends in a 500 with nothing saved; invalid data
      answers 400 with the errors and saves nothing. `pk` is the key the new
      record receives. */
  method Register(validation: Validation<map<string, string>>, accounts: Accounts, pk: Pk,
                  slugify: string -> string)
    returns (reply: Reply, saved: Accounts)
    requires pk !in accounts
    requires validation.Valid? ==> "email" in validation.data && "password" in validation.data
    ensures validation.Invalid? ==> reply == Reply(BAD_REQUEST, Errors(validation.errors)) && saved == accounts
    ensures validation.Valid? && UserSerializer.CreateBase(validation.data, slugify) == ""
            && "" !in Usernames(accounts) ==>
      reply == Reply(SERVER_ERROR, ErrorPage) && saved == accounts
    ensures validation.Valid? && !(UserSerializer.CreateBase(validation.data, slugify) == ""
            && "" !in Usernames(accounts)) ==>
      && reply.status == CREATED
      && saved.Keys == accounts.Keys + {pk}
      && reply.body == Serialize(pk, saved[pk])
      && (forall q :: q in accounts ==> saved[q] == accounts[q])
      && saved[pk].username.Some?
      && saved[pk].username.value != ""
      && saved[pk].username.value !in Usernames(accounts)
      && saved[pk].email == NormalizeEmail(validation.data["email"])
      && saved[pk].fullName == Get(validation.data, "full_name")
      && CheckPassword(validation.data["password"], saved[pk].password)
    ensures UniqueUsernames(accounts) ==> UniqueUsernames(saved)
  {
    match validation {
      case Invalid(errors) =>
        reply := Reply(BAD_REQUEST, Errors(errors));
        saved := accounts;
      case Valid(data) =>
        var _, created, stored := UserSerializer.Create(accounts, pk, data, slugify);
        if created.None? {
          reply := Reply(SERVER_ERROR, ErrorPage);
          saved := accounts;
        } else {
          var user := created.value.(password := SetPassword(data["password"]));
          saved := stored[pk := user];
          reply := Reply(CREATED, Serialize(pk, user));
        }
    }
  }

  // ---------------------------------------------------------------------
  // Logout
  // ---------------------------------------------------------------------

  /** The names of the access-token and refresh-token cookies, from the
      settings. */
  datatype CookieNames = CookieNames(access: string, refresh: string)

  datatype SetCookie = SetCookie(name: string, value: string, maxAge: int)

  /** The reply, the refresh token blacklisted (if any), and the cookies the
      response sets. */
  datatype LogoutResult = LogoutResult(reply: Reply, blacklisted: Option<string>, cookies: seq<SetCookie>)

  /** `LogoutView.post`. `blacklists(t)` says whether `t` parses as a
      refresh token and blacklisting it succeeds; when it does not, the
      exception handler answers 400. A missing or empty refresh cookie skips
      the blacklist. */
  function Logout(requestCookies: map<string, string>, names: CookieNames, blacklists: string -> bool)
    : (r: LogoutResult)
    ensures var token := Get(requestCookies, names.refresh).GetOr("");
      && (r.blacklisted.Some? <==> token != "" && blacklists(token))
      && (r.blacklisted.Some? ==> r.blacklisted.value == token)
      && (r.reply.status == BAD_REQUEST <==> token != "" && !blacklists(token))
    ensures r.reply.status == BAD_REQUEST ==> r.reply.body == Error("Invalid token") && r.cookies == []
    ensures r.reply.status != BAD_REQUEST ==>
      && r.reply == Reply(OK, Message("Logout successful"))
      && r.cookies == [SetCookie(names.access, "", 0), SetCookie(names.refresh, "", 0)]
  {
    var token := Get(requestCookies, names.refresh).GetOr("");
    if token != "" && !blacklists(token) then
      LogoutResult(Reply(BAD_REQUEST, Error("Invalid token")), None, [])
    else
      LogoutResult(Reply(OK, Message("Logout successful")),
                   if token != "" then Some(token) else None,
                   [SetCookie(names.access, "", 0), SetCookie(names.refresh, "", 0)])
  }

  /** A logout without a refresh cookie always succeeds and still clears
      both cookies. */
  lemma LogoutWithoutRefreshCookie(requestCookies: map<string, string>, names: CookieNames, blacklists: string -> bool)
    requires names.refresh !in requestCookies
    ensures Logout(requestCookies, names, blacklists) ==
      LogoutResult(Reply(OK, Message("Logout successful")), None,
                   [SetCookie(names.access, "", 0), SetCookie(names.refresh, "", 0)])
  {
  }

  // ---------------------------------------------------------------------
  // Password reset request
  // ---------------------------------------------------------------------

  /** The reset mail handed to the mail server. */
  datatype ResetMail = ResetMail(to: string, subject: string, resetUrl: string, validHours: nat)

  /** The reply (none when the view falls off its end), and the mail whose
      sending was attempted, if any. */
  datatype ResetRequestResult = ResetRequestResult(reply: Option<Reply>, mail: Option<ResetMail>)

  const GenericResetMessage: string :=
    "If an account exists with this email, a password reset link has been sent."

  const ResetPage: string := "https://yourfrontend.com/reset-password?token="

  /** The separator the view puts before the address: a second `?`, so
      `email` is not a query parameter of its own. */
  const EmailParam: string := "?email="

  /** The link put in the mail, exactly as the view formats it: the page,
      the token, then the address, both unescaped. */
  function ResetUrl(token: string, email: string): (url: string)
    ensures |url| == |ResetPage| + |token| + |EmailParam| + |email|
    ensures url[..|ResetPage|] == ResetPage
    ensures url[|ResetPage|..|ResetPage| + |token|] == token
    ensures url[|ResetPage| + |token|..|ResetPage| + |token| + |EmailParam|] == EmailParam
    ensures url[|ResetPage| + |token| + |EmailParam|..] == email
  {
    ResetPage + token + EmailParam + email
  }

  /** The link still determines the token and the address when the token
      has no `?`, as the generator's tokens (digits, letters, one `-`) do
      not. */
  lemma ResetUrlDeterminesTokenAndEmail(t1: string, e1: string, t2: string, e2: string)
    requires forall i :: 0 <= i < |t1| ==> t1[i] != '?'
    requires forall i :: 0 <= i < |t2| ==> t2[i] != '?'
    requires ResetUrl(t1, e1) == ResetUrl(t2, e2)
    ensures t1 == t2 && e1 == e2
  {
    assert EmailParam[0] == '?';
    assert |t1| == |t2|;
  }

  /** `PasswordResetView.post`. `makeToken` is the token generator and
      `sendSucceeds` whether the mail server accepted the message. */
  function ResetRequest(validation: Validation<string>, accounts: Accounts,
                        makeToken: Account -> string, sendSucceeds: bool): (r: ResetRequestResult)
    requires UniqueEmails(accounts)
    ensures validation.Invalid? ==> r == ResetRequestResult(None, None)
    ensures validation.Valid? && UserWithEmail(accounts, Some(validation.data)).None? ==>
      r == ResetRequestResult(Some(Reply(OK, Message(GenericResetMessage))), None)
    ensures validation.Valid? && UserWithEmail(accounts, Some(validation.data)).Some? ==>
      var user := accounts[UserWithEmail(accounts, Some(validation.data)).value];
      && r.mail == Some(ResetMail(validation.data, "Reset Your Password",
                                  ResetUrl(makeToken(user), validation.data), 24))
      && r.reply == Some(if sendSucceeds then Reply(OK, Message("Password reset email sent"))
                         else Reply(SERVER_ERROR, Error("Failed to send email")))
    ensures r.mail.Some? ==> exists pk :: pk in accounts && accounts[pk].email == r.mail.value.to
  {
    match validation
    case Invalid(_) => ResetRequestResult(None, None)
    case Valid(email) =>
      match UserWithEmail(accounts, Some(email))
      case None => ResetRequestResult(Some(Reply(OK, Message(GenericResetMessage))), None)
      case Some(pk) =>
        var mail := ResetMail(email, "Reset Your Password", ResetUrl(makeToken(accounts[pk]), email), 24);
        if sendSucceeds then
          ResetRequestResult(Some(Reply(OK, Message("Password reset email sent"))), Some(mail))
        else
          ResetRequestResult(Some(Reply(SERVER_ERROR, Error("Failed to send email"))), Some(mail))
  }

  /** The generic message is meant for unknown addresses, but a known address
      with a working mail server gets a different message, so the reply
      tells the two apart. */
  lemma ResetReplyRevealsAccount(accounts: Accounts, known: string, unknown: string, makeToken: Account -> string)
    requires UniqueEmails(accounts)
    requires exists pk :: pk in accounts && accounts[pk].email == known
    requires forall pk :: pk in accounts ==> accounts[pk].email != unknown
    ensures ResetRequest(Valid(known), accounts, makeToken, true).reply !=
            ResetRequest(Valid(unknown), accounts, makeToken, true).reply
  {
  }

  // ---------------------------------------------------------------------
  // Password reset confirmation
  // ---------------------------------------------------------------------

  datatype ResetConfirmData = ResetConfirmData(newPassword: string, token: string)

  /** `PasswordResetConfirmView.post`. The email is read from the raw
      request, not from the validated data, and may be missing.
      `checkToken` is the token generator's check. */
  function ResetConfirm(validation: Validation<ResetConfirmData>, email: Option<string>, accounts: Accounts,
                        checkToken: (Account, string) -> bool): (r: Stored)
    requires UniqueEmails(accounts)
    ensures validation.Invalid? ==> r == Stored(Reply(BAD_REQUEST, Errors(validation.errors)), accounts)
    ensures validation.Valid? && UserWithEmail(accounts, email).None? ==>
      r == Stored(Reply(NOT_FOUND, Error("User not found")), accounts)
    ensures validation.Valid? && UserWithEmail(accounts, email).Some? ==>
      var pk := UserWithEmail(accounts, email).value;
      if checkToken(accounts[pk], validation.data.token) then
        r == Stored(Reply(OK, Message("Password has been reset")),
                    accounts[pk := accounts[pk].(password := SetPassword(validation.data.newPassword))])
      else
        r == Stored(Reply(BAD_REQUEST, Error("Invalid token")), accounts)
  {
    match validation
    case Invalid(errors) => Stored(Reply(BAD_REQUEST, Errors(errors)), accounts)
    case Valid(data) =>
      match UserWithEmail(accounts, email)
      case None => Stored(Reply(NOT_FOUND, Error("User not found")), accounts)
      case Some(pk) =>
        if checkToken(accounts[pk], data.token) then
          Stored(Reply(OK, Message("Password has been reset")),
                 accounts[pk := accounts[pk].(password := SetPassword(data.newPassword))])
        else
          Stored(Reply(BAD_REQUEST, Error("Invalid token")), accounts)
  }

  /** A confirmation changes at most one thing: the password of the account
      with the given email, and only on a 200 reply; the table's uniqueness
      constraints are kept. */
  lemma ResetConfirmChangesOnlyThePassword(validation: Validation<ResetConfirmData>, email: Option<string>,
                                        accounts: Accounts, checkToken: (Account, string) -> bool)
    requires UniqueEmails(accounts)
    ensures var r := ResetConfirm(validation, email, accounts, checkToken);
      && r.accounts.Keys == accounts.Keys
      && (r.accounts != accounts ==> r.reply.status == OK)
      && (forall pk :: pk in accounts ==>
            r.accounts[pk] == accounts[pk] ||
            (email.Some? && accounts[pk].email == email.value && validation.Valid? &&
             r.accounts[pk] == accounts[pk].(password := SetPassword(validation.data.newPassword))))
      && UniqueEmails(r.accounts)
      && (UniqueUsernames(accounts) ==> UniqueUsernames(r.accounts))
  {
    var r := ResetConfirm(validation, email, accounts, checkToken);
    if validation.Valid? && UserWithEmail(accounts, email).Some? {
      var pk := UserWithEmail(accounts, email).value;
      assert forall q :: q in accounts && q != pk ==> r.accounts[q] == accounts[q];
    }
  }

  // ---------------------------------------------------------------------
  // Password change
  // ---------------------------------------------------------------------

  /** `request.data.get(key)` is present and not empty. */
  predicate Given(data: map<string, string>, key: string) {
    key in data && data[key] != ""
  }

  predicate AllGiven(data: map<string, string>) {
    Given(data, "previous_password") && Given(data, "password1") && Given(data, "password2")
  }

  /** The reply and the requesting user's record after the request. */
  datatype Changed = Changed(reply: Reply, user: Account)

  /** `ChangePasswordView.post` for the authenticated `user`: three checks
      in order, the first failing one deciding the 400 reply; the password
      changes only when all pass. */
  function ChangePassword(data: map<string, string>, user: Account): (r: Changed)
    ensures r.reply.status == OK <==>
      AllGiven(data) && CheckPassword(data["previous_password"], user.password) && data["password1"] == data["password2"]
    ensures r.reply.status != OK ==> r.reply.status == BAD_REQUEST && r.user == user
    ensures !AllGiven(data) ==> r.reply.body == Error("All fields are required")
    ensures AllGiven(data) && !CheckPassword(data["previous_password"], user.password) ==>
      r.reply.body == Error("Previous password is incorrect")
    ensures AllGiven(data) && CheckPassword(data["previous_password"], user.password) && data["password1"] != data["password2"] ==>
      r.reply.body == Error("New passwords do not match")
    ensures r.reply.status == OK ==>
      r.reply.body == Message("Password changed successfully") && r.user == user.(password := SetPassword(data["password1"]))
  {
    if !AllGiven(data) then
      Changed(Reply(BAD_REQUEST, Error("All fields are required")), user)
    else if !CheckPassword(data["previous_password"], user.password) then
      Changed(Reply(BAD_REQUEST, Error("Previous password is incorrect")), user)
    else if data["password1"] != data["password2"] then
      Changed(Reply(BAD_REQUEST, Error("New passwords do not match")), user)
    else
      Changed(Reply(OK, Message("Password changed successfully")), user.(password := SetPassword(data["password1"])))
  }

  /** After a successful change the new password is the only one that
      checks, so the previous one stops working unless it was reused; a
      second identical request then fails unless it was reused. */
  lemma ChangePasswordEffect(data: map<string, string>, user: Account)
    requires ChangePassword(data, user).reply.status == OK
    ensures var after := ChangePassword(data, user).user;
      && CheckPassword(data["password1"], after.password)
      && (forall other :: CheckPassword(other, after.password) ==> other == data["password1"])
      && (ChangePassword(data, after).reply.status == OK <==> data["previous_password"] == data["password1"])
  {
  }
}
