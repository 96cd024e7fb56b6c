/** The account table as the back end's account code sees it: a finite map
    from primary key to account record. Password hashing is abstract: a
    stored credential is either unusable or the hash of one secret, and
    checking a password asks whether it is that secret. */
module Users {
  import opened Wrappers
  import Text

  /** A primary key. The table's keys are random UUIDs; here any natural
      number names a record. */
  type Pk = nat

  datatype Credential = Unusable | Hashed(secret: string)

  /** `check_password(raw, stored)`: true exactly for the secret that was
      set; an unusable password accepts nothing. */
  predicate CheckPassword(raw: string, stored: Credential)
    ensures CheckPassword(raw, stored) ==> stored != Unusable
  {
    stored.Hashed? && stored.secret == raw
  }

  /** `user.set_password(raw)`: afterwards `raw` is the one password that
      checks. */
  function SetPassword(raw: string): (c: Credential)
    ensures CheckPassword(raw, c)
    ensures forall other :: CheckPassword(other, c) ==> other == raw
  {
    Hashed(raw)
  }

  /** A freshly set password checks against itself and against nothing
      else. */
  lemma SetPasswordChecks(raw: string, other: string)
    ensures CheckPassword(raw, SetPassword(raw))
    ensures CheckPassword(other, SetPassword(raw)) <==> other == raw
    ensures !CheckPassword(other, Unusable)
  {
  }

  /** The position of the last `@` in `s`, if there is one. */
  function LastAt(s: string): (r: Option<nat>)
    ensures r.Some? ==> r.value < |s| && s[r.value] == '@' && forall j :: r.value < j < |s| ==> s[j] != '@'
    ensures r.None? ==> forall j :: 0 <= j < |s| ==> s[j] != '@'
  {
    if s == [] then None
    else if s[|s| - 1] == '@' then Some(|s| - 1)
    else LastAt(s[..|s| - 1])
  }

  /** The user manager's `normalize_email`: the part after the last `@` is
      lower-cased and the part before it kept; an address without `@` is
      kept as it is. */
  function NormalizeEmail(email: string): (r: string)
    ensures |r| == |email|
    ensures LastAt(email).None? ==> r == email
    ensures LastAt(email).Some? ==>
      var i := LastAt(email).value;
      && r[..i + 1] == email[..i + 1]
      && r[i + 1..] == Text.Lower(email[i + 1..])
  {
    match LastAt(email)
    case None => email
    case Some(i) => email[..i + 1] + Text.Lower(email[i + 1..])
  }

  /** Normalising an address that is already normal changes nothing: the
      last `@` stays where it was, and the domain is already lower case. */
  lemma NormalizeEmailIdempotent(email: string)
    ensures NormalizeEmail(NormalizeEmail(email)) == NormalizeEmail(email)
  {
    var r := NormalizeEmail(email);
    if LastAt(email).Some? {
      var i := LastAt(email).value;
      assert r[i] == '@' by { assert r[..i + 1][i] == '@'; }
      forall j | i < j < |r|
        ensures r[j] != '@'
      {
        assert r[j] == r[i + 1..][j - i - 1];
        assert email[j] == email[i + 1..][j - i - 1];
      }
      assert LastAt(r) == Some(i);
      Text.LowerIdempotent(email[i + 1..]);
      assert r == r[..i + 1] + r[i + 1..];
    }
  }

  /** Only the domain's case changes: "A@Ex.IO" is stored as "A@ex.io". */
  lemma NormalizeEmailExample()
    ensures NormalizeEmail("A@Ex.IO") == "A@ex.io"
  {
    var e := "A@Ex.IO";
    assert LastAt(e) == Some(1) by {
      assert e[1] == '@';
      assert forall j :: 1 < j < |e| ==> e[j] != '@';
    }
    var d := Text.Lower(e[2..]);
    assert d[0] == 'e' && d[1] == 'x' && d[2] == '.' && d[3] == 'i' && d[4] == 'o';
    assert d == "ex.io";
  }

  /** The fields of an account record the model follows. `username` and
      `full_name` may be absent (`null`). */
  datatype Account = Account(
    username: Option<string>,
    email: string,
    fullName: Option<string>,
    password: Credential)

  type Accounts = map<Pk, Account>

  /** The usernames held by the records in `accounts`. */
  function Usernames(accounts: Accounts): (names: set<string>)
    ensures forall pk :: pk in accounts && accounts[pk].username.Some? ==> accounts[pk].username.value in names
    ensures forall name :: name in names ==> exists pk :: pk in accounts && accounts[pk].username == Some(name)
  {
    set pk | pk in accounts && accounts[pk].username.Some? :: accounts[pk].username.value
  }

  /** The table's uniqueness constraint on `username`. */
  predicate UniqueUsernames(accounts: Accounts) {
    forall p, q :: p in accounts && q in accounts && p != q && accounts[p].username.Some? ==>
      accounts[p].username != accounts[q].username
  }

  /** The table's uniqueness constraint on `email`. */
  predicate UniqueEmails(accounts: Accounts) {
    forall p, q :: p in accounts && q in accounts && p != q ==> accounts[p].email != accounts[q].email
  }

  /** `User.objects.get(email=email)` on a table where emails are unique:
      the one record with that email, or nothing. A missing email (`None`)
      matches no record, since every record has one. */
  function UserWithEmail(accounts: Accounts, email: Option<string>): (r: Option<Pk>)
    requires UniqueEmails(accounts)
    ensures r.Some? ==> email.Some? && r.value in accounts && accounts[r.value].email == email.value
    ensures r.None? <==> email.None? || forall pk :: pk in accounts ==> accounts[pk].email != email.value
  {
    if email.Some? && exists pk :: pk in accounts && accounts[pk].email == email.value then
      var pk :| pk in accounts && accounts[pk].email == email.value;
      Some(pk)
    else
      None
  }

  /** A user's own username is not held by anyone else. */
  lemma OwnUsernameFreeForOthers(accounts: Accounts, pk: Pk)
    requires UniqueUsernames(accounts)
    requires pk in accounts && accounts[pk].username.Some?
    ensures accounts[pk].username.value !in Usernames(accounts - {pk})
  {
  }
}
