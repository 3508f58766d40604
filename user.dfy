/** The User record (server/models/User.js): fields, defaults, the validators
    and unique indexes checked by `save`, and the password-hashing pre-save
    hook (the hash itself is a parameter). */
module UserModel {
  import opened Common
  import Text

  datatype User = User(
    id: Id,
    name: string,
    email: Option<string>,
    password: Option<string>,
    googleId: Option<string>,
    facebookId: Option<string>,
    provider: string,
    isVerified: bool,
    role: string,
    avatar: string)

  /** User fields as supplied to `new User(...)`; an absent field is None. */
  datatype UserInput = UserInput(
    name: Option<string>,
    email: Option<string>,
    password: Option<string>,
    googleId: Option<string>,
    facebookId: Option<string>,
    provider: Option<string>,
    isVerified: Option<bool>,
    role: Option<string>,
    avatar: Option<string>)

  const Providers: set<string> := {"local", "google", "facebook"}

  /** The `lowercase` and `trim` setters on `email`; Mongoose applies them to
      stored values and to query values alike. */
  function NormalizeEmail(e: string): string {
    Text.Trim(Text.ToLower(e))
  }

  /** `new User(input)` with the defaults provider = "local",
      isVerified = false, role = "user", avatar = "". */
  function New(id: Id, input: UserInput): User {
    User(
      id,
      Text.Trim(input.name.GetOr("")),
      if input.email.Some? then Some(NormalizeEmail(input.email.value)) else None,
      input.password,
      input.googleId,
      input.facebookId,
      input.provider.GetOr("local"),
      input.isVerified.GetOr(false),
      input.role.GetOr("user"),
      input.avatar.GetOr(""))
  }

  /** The conditional `required` on password: only users linked to neither
      Google nor Facebook need one. */
  predicate PasswordRequired(u: User) {
    !Given(u.googleId) && !Given(u.facebookId)
  }

  /** The schema's validators. */
  predicate Valid(u: User) {
    && u.name != ""
    && u.email.Some? && u.email.value != ""
    && (PasswordRequired(u) ==> Given(u.password))
    && (u.password.Some? ==> |u.password.value| >= 6)
    && u.provider in Providers
  }

  /** Two users collide on a unique index: email (every document), or the
      sparse googleId / facebookId indexes (only documents that have one). */
  predicate Clash(a: User, b: User) {
    || a.email == b.email
    || (a.googleId.Some? && a.googleId == b.googleId)
    || (a.facebookId.Some? && a.facebookId == b.facebookId)
  }

  predicate UniqueKeys(us: seq<User>) {
    forall i, j :: 0 <= i < j < |us| ==> !Clash(us[i], us[j])
  }

  /** `save` of a new document succeeds: it is valid and clashes with no
      stored user. */
  predicate CanInsert(us: seq<User>, u: User) {
    Valid(u) && forall i :: 0 <= i < |us| ==> !Clash(us[i], u)
  }

  /** `save` of the stored document at `k`, changed to `u`, succeeds. */
  predicate CanReplace(us: seq<User>, k: nat, u: User)
    requires k < |us|
  {
    Valid(u) && forall i :: 0 <= i < |us| && i != k ==> !Clash(us[i], u)
  }

  lemma InsertKeepsUniqueKeys(us: seq<User>, u: User)
    requires UniqueKeys(us) && CanInsert(us, u)
    ensures UniqueKeys(us + [u])
  {
    var us' := us + [u];
    forall i, j | 0 <= i < j < |us'| ensures !Clash(us'[i], us'[j]) {
      assert us'[i] == us[i];
      if j < |us| {
        assert us'[j] == us[j];
      }
    }
  }

  lemma ReplaceKeepsUniqueKeys(us: seq<User>, k: nat, u: User)
    requires k < |us| && UniqueKeys(us) && CanReplace(us, k, u)
    ensures UniqueKeys(us[k := u])
  {
    var us' := us[k := u];
    forall i, j | 0 <= i < j < |us'| ensures !Clash(us'[i], us'[j]) {
      if i == k {
        assert !Clash(us[j], u);
      }
    }
  }

  /** A user can be saved without a password exactly when it carries a
      Google or Facebook id; a password that is present has at least six
      characters. */
  lemma PasswordRule(u: User)
    requires u.name != "" && u.email.Some? && u.email.value != "" && u.provider in Providers
    ensures u.password.None? ==> (Valid(u) <==> Given(u.googleId) || Given(u.facebookId))
    ensures u.password.Some? ==> (Valid(u) <==> |u.password.value| >= 6)
  {
  }

  /** New users default to the local provider, the "user" role, unverified
      and an empty avatar; a stored email is lower-cased and trimmed. */
  lemma NewDefaults(id: Id, input: UserInput)
    ensures var u := New(id, input);
      && (input.provider.None? ==> u.provider == "local")
      && (input.role.None? ==> u.role == "user")
      && (input.isVerified.None? ==> !u.isVerified)
      && (input.avatar.None? ==> u.avatar == "")
      && (input.email.Some? ==> u.email == Some(NormalizeEmail(input.email.value)))
  {
  }

  lemma {:induction false} ToLowerFixed(s: string)
    requires forall i :: 0 <= i < |s| ==> Text.LowerChar(s[i]) == s[i]
    ensures Text.ToLower(s) == s
  {
  }

  /** Normalising a stored email again leaves it unchanged, so a lookup by a
      normalised address finds the stored one. */
  lemma NormalizeEmailIdempotent(e: string)
    ensures NormalizeEmail(NormalizeEmail(e)) == NormalizeEmail(e)
  {
    var low := Text.ToLower(e);
    var n := Text.Trim(low);
    Text.TrimIsCore(low);
    var a :| 0 <= a && Text.OccursAt(low, n, a);
    forall i | 0 <= i < |n| ensures Text.LowerChar(n[i]) == n[i] {
      assert n[i] == low[a + i] by {
        assert low[a..a + |n|] == n;
      }
      assert low[a + i] == Text.LowerChar(e[a + i]);
      Text.LowerCharIdempotent(e[a + i]);
    }
    ToLowerFixed(n);
    assert Text.ToLower(n) == n;
    Text.TrimIdempotent(low);
    assert Text.Trim(n) == n;
  }

  /** The pre-save hook: when the password was modified and is non-empty it
      is replaced by its hash; nothing else about the user changes. */
  function PreSave(u: User, passwordModified: bool, hash: string -> string): (r: User)
    ensures r.(password := u.password) == u
    ensures passwordModified && Given(u.password) ==> r.password == Some(hash(u.password.value))
    ensures !passwordModified || !Given(u.password) ==> r == u
  {
    if !passwordModified || !Given(u.password) then u
    else u.(password := Some(hash(u.password.value)))
  }
}
