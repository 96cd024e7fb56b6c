/** The user serializer's `create` and `update`: the username is derived
    from the full name and made unique by appending `_1`, `_2`, ... until no
    other record holds it. `slugify` is Django's and is a parameter here. */
module UserSerializer {
  import opened Wrappers
  import Text
  import opened Users

  /** `s.replace(" ", "_")`. */
  function ReplaceSpaces(s: string): (r: string)
    ensures |r| == |s|
    ensures forall i :: 0 <= i < |s| ==> r[i] == if s[i] == ' ' then '_' else s[i]
  {
    if s == [] then [] else [if s[0] == ' ' then '_' else s[0]] + ReplaceSpaces(s[1..])
  }

  /** The username's base: the full name with spaces turned into
      underscores, then slugified. */
  function BaseUsername(fullName: string, slugify: string -> string): (r: string)
    ensures r == slugify(seq(|fullName|, i requires 0 <= i < |fullName| =>
                             if fullName[i] == ' ' then '_' else fullName[i]))
  {
    var spaced := ReplaceSpaces(fullName);
    assert spaced == seq(|fullName|, i requires 0 <= i < |fullName| =>
                         if fullName[i] == ' ' then '_' else fullName[i]);
    slugify(spaced)
  }

  /** A space and an underscore in the same place give the same base, so
      "Ada Lovelace" and "Ada_Lovelace" compete for the same names. */
  lemma SpacesAndUnderscoresAlike(a: string, b: string, slugify: string -> string)
    requires |a| == |b|
    requires forall i :: 0 <= i < |a| ==> a[i] == b[i] || (a[i] in " _" && b[i] in " _")
    ensures BaseUsername(a, slugify) == BaseUsername(b, slugify)
  {
    assert ReplaceSpaces(a) == ReplaceSpaces(b);
  }

  /** The k-th name tried: the base itself first, then `base_k`. */
  function Candidate(base: string, k: nat): (r: string)
    ensures k == 0 ==> r == base
    ensures k > 0 ==> |r| > |base| + 1 && r[..|base| + 1] == base + "_" && r[|base| + 1..] == Text.NatToString(k)
  {
    if k == 0 then base else base + "_" + Text.NatToString(k)
  }

  /** Different counters give different names, so the loop never tries the
      same name twice. */
  lemma CandidateInjective(base: string, j: nat, k: nat)
    ensures Candidate(base, j) == Candidate(base, k) ==> j == k
  {
    if 0 < j && 0 < k && Candidate(base, j) == Candidate(base, k) {
      Text.NatToStringInjective(j, k);
    }
  }

  /** `k` is the first counter whose name nobody holds. */
  predicate FirstFree(base: string, taken: set<string>, k: nat) {
    Candidate(base, k) !in taken && forall j :: 0 <= j < k ==> Candidate(base, j) in taken
  }

  /** At most one counter is the first free one. */
  lemma FirstFreeUnique(base: string, taken: set<string>, j: nat, k: nat)
    requires FirstFree(base, taken, j) && FirstFree(base, taken, k)
    ensures j == k
  {
  }

  /** The chosen name is empty exactly when the base is empty and nobody
      holds the empty name: every later name is longer than its base. */
  lemma EmptyFirstFree(base: string, taken: set<string>, k: nat)
    requires FirstFree(base, taken, k)
    ensures Candidate(base, k) == "" <==> base == "" && "" !in taken
  {
    if base == "" && "" !in taken {
      FirstFreeUnique(base, taken, k, 0);
    }
  }

  lemma SubsetCardinality<T>(a: set<T>, b: set<T>)
    requires a <= b
    ensures |a| <= |b|
  {
    assert b == a + (b - a);
  }

  /** The names tried before counter `n`. */
  function CandidatesBelow(base: string, n: nat): set<string> {
    set j | 0 <= j < n :: Candidate(base, j)
  }

  /** The first `n` names are `n` different names. */
  lemma {:induction false} CandidatesBelowSize(base: string, n: nat)
    ensures |CandidatesBelow(base, n)| == n
  {
    if n > 0 {
      CandidatesBelowSize(base, n - 1);
      assert CandidatesBelow(base, n) == CandidatesBelow(base, n - 1) + {Candidate(base, n - 1)};
      forall j | 0 <= j < n - 1
        ensures Candidate(base, j) != Candidate(base, n - 1)
      {
        CandidateInjective(base, j, n - 1);
      }
    }
  }

  /** If the first `n` names are all taken, at least `n` names are taken:
      the loop cannot run more rounds than there are records. */
  lemma TakenCandidatesBound(base: string, taken: set<string>, n: nat)
    requires forall j :: 0 <= j < n ==> Candidate(base, j) in taken
    ensures n <= |taken|
  {
    CandidatesBelowSize(base, n);
    SubsetCardinality(CandidatesBelow(base, n), taken);
  }

  /** The uniqueness loop: the base if nobody holds it, otherwise `base_k`
      for the least `k` whose name nobody holds. It stops after at most as
      many rounds as there are names taken. */
  method FreeUsername(base: string, taken: set<string>) returns (username: string)
    ensures username !in taken
    ensures exists k: nat :: k <= |taken| && FirstFree(base, taken, k) && username == Candidate(base, k)
  {
    username := base;
    var counter: nat := 1;
    while username in taken
      invariant counter >= 1
      invariant username == Candidate(base, counter - 1)
      invariant forall j :: 0 <= j < counter - 1 ==> Candidate(base, j) in taken
      invariant counter - 1 <= |taken|
      decreases |taken| - (counter - 1)
    {
      TakenCandidatesBound(base, taken, counter);
      username := base + "_" + Text.NatToString(counter);
      counter := counter + 1;
    }
  }

  /** The base name `create` derives from the validated data; a missing
      full name counts as the empty string. */
  function CreateBase(validated: map<string, string>, slugify: string -> string): (r: string)
    ensures "full_name" !in validated ==> r == BaseUsername("", slugify)
    ensures "full_name" in validated ==> r == BaseUsername(validated["full_name"], slugify)
  {
    BaseUsername(Get(validated, "full_name").GetOr(""), slugify)
  }

  /** `create(validated_data)`: `password2` is dropped and the generated
      username added. The user manager's `create_user` then refuses an
      empty username (its `ValueError`; `user` is `None` and nothing is
      saved); otherwise it builds the record from the username, the
      normalised email and the full name, and the validated password is
      set on it. */
  method Create(accounts: Accounts, pk: Pk, validated: map<string, string>, slugify: string -> string)
    returns (data: map<string, string>, user: Option<Account>, saved: Accounts)
    requires pk !in accounts
    requires "email" in validated && "password" in validated
    ensures data.Keys == validated.Keys - {"password2"} + {"username"}
    ensures forall key :: key in data && key != "username" ==> data[key] == validated[key]
    ensures data["username"] !in Usernames(accounts)
    ensures exists k: nat ::
      && FirstFree(CreateBase(validated, slugify), Usernames(accounts), k)
      && data["username"] == Candidate(CreateBase(validated, slugify), k)
    ensures user.None? <==> CreateBase(validated, slugify) == "" && "" !in Usernames(accounts)
    ensures user.None? ==> saved == accounts
    ensures user.Some? ==>
      && user.value == Account(Some(data["username"]), NormalizeEmail(validated["email"]),
                               Get(validated, "full_name"), SetPassword(validated["password"]))
      && saved == accounts[pk := user.value]
    ensures UniqueUsernames(accounts) ==> UniqueUsernames(saved)
  {
    data := validated - {"password2"};
    assert Get(data, "full_name") == Get(validated, "full_name");
    var fullName := Get(data, "full_name").GetOr("");
    var base := BaseUsername(fullName, slugify);
    assert base == CreateBase(validated, slugify);
    var username := FreeUsername(base, Usernames(accounts));
    data := data["username" := username];
    var k: nat :| FirstFree(base, Usernames(accounts), k) && username == Candidate(base, k);
    EmptyFirstFree(base, Usernames(accounts), k);
    if username == "" {
      // create_user raises before anything is saved
      user := None;
      saved := accounts;
      return;
    }
    // create_user without a password leaves it unusable; set_password follows
    var created := Account(Some(data["username"]), NormalizeEmail(data["email"]), Get(data, "full_name"), Unusable);
    created := created.(password := SetPassword(data["password"]));
    user := Some(created);
    saved := accounts[pk := created];
  }

  /** The framework's normal update, for the fields the model follows:
      each of them present in `data` is assigned to the record. */
  function ApplyUpdate(account: Account, data: map<string, string>): (r: Account)
    ensures r.username == if "username" in data then Some(data["username"]) else account.username
    ensures r.email == if "email" in data then data["email"] else account.email
    ensures r.fullName == if "full_name" in data then Some(data["full_name"]) else account.fullName
    ensures r.password == account.password
  {
    account.(
      username := if "username" in data then Some(data["username"]) else account.username,
      email := Get(data, "email").GetOr(account.email),
      fullName := if "full_name" in data then Some(data["full_name"]) else account.fullName)
  }

  /** `update(instance, validated_data)`: only when the full name changes is
      the username regenerated, and then the instance's own record does not
      count as holding a name. */
  method Update(accounts: Accounts, pk: Pk, validated: map<string, string>, slugify: string -> string)
    returns (data: map<string, string>, saved: Accounts)
    requires pk in accounts
    ensures "full_name" !in validated ==> data == validated
    ensures "full_name" in validated ==>
      && "username" in data
      && data == validated["username" := data["username"]]
      && data["username"] !in Usernames(accounts - {pk})
      && exists k: nat ::
        && FirstFree(BaseUsername(validated["full_name"], slugify), Usernames(accounts - {pk}), k)
        && data["username"] == Candidate(BaseUsername(validated["full_name"], slugify), k)
    ensures "full_name" in validated && UniqueUsernames(accounts)
            && accounts[pk].username == Some(BaseUsername(validated["full_name"], slugify)) ==>
      data["username"] == BaseUsername(validated["full_name"], slugify)
    ensures saved == accounts[pk := ApplyUpdate(accounts[pk], data)]
    ensures "full_name" in validated && UniqueUsernames(accounts) ==> UniqueUsernames(saved)
  {
    data := validated;
    if "full_name" in validated {
      var base := BaseUsername(validated["full_name"], slugify);
      var username := FreeUsername(base, Usernames(accounts - {pk}));
      data := data["username" := username];
      if UniqueUsernames(accounts) && accounts[pk].username == Some(base) {
        OwnUsernameFreeForOthers(accounts, pk);
        var k :| FirstFree(base, Usernames(accounts - {pk}), k) && username == Candidate(base, k);
        FirstFreeUnique(base, Usernames(accounts - {pk}), k, 0);
      }
    }
    saved := accounts[pk := ApplyUpdate(accounts[pk], data)];
    if "full_name" in validated && UniqueUsernames(accounts) {
      forall p, q | p in saved && q in saved && p != q && saved[p].username.Some?
        ensures saved[p].username != saved[q].username
      {
        if p == pk {
          assert q in accounts - {pk};
        } else if q == pk {
          assert p in accounts - {pk};
        }
      }
    }
  }
}
