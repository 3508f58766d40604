/** OAuth account resolution (server/config/passport.js): the Google and
    Facebook verify callbacks, which find the user signed in with the
    provider id, else link the provider to the user with the profile's email,
    else create a user; and the session's serialize / deserialize pair. The
    OAuth handshake itself and the strategy registration are not modelled. */
module Passport {
  import opened Common
  import Seqs
  import opened UserModel
  import Database

  /** The parts of an OAuth profile the callbacks read; `emails` and `photos`
      hold the `value` of each entry, and an absent list is empty. */
  datatype Profile = Profile(id: string, displayName: string, emails: seq<string>, photos: seq<string>)

  datatype Provider = Google | Facebook

  /** The outcome of a callback: what it hands to `done`, and the users
      collection and id counter afterwards. */
  datatype Login = Login(result: Result<User>, users: seq<User>, nextId: nat)

  function ProviderId(provider: Provider, u: User): Option<string> {
    match provider
    case Google => u.googleId
    case Facebook => u.facebookId
  }

  /** The query `{ googleId: profile.id }` (or `facebookId`). */
  function WithProviderId(provider: Provider, id: string): User -> bool {
    (u: User) => ProviderId(provider, u) == Some(id)
  }

  /** The query `{ email: e }`; the schema's setters normalise the query
      value as they normalise stored emails. */
  function WithEmail(e: string): User -> bool {
    (u: User) => u.email == Some(NormalizeEmail(e))
  }

  /** Linking: the provider id and the profile's first photo are written
      into the existing user. */
  function Link(provider: Provider, u: User, p: Profile): (r: User)
    requires p.photos != []
    ensures ProviderId(provider, r) == Some(p.id) && r.avatar == p.photos[0]
    ensures r.id == u.id && r.email == u.email && r.name == u.name && r.password == u.password
    ensures r.role == u.role && r.provider == u.provider && r.isVerified == u.isVerified
    ensures ProviderId(if provider == Google then Facebook else Google, r)
         == ProviderId(if provider == Google then Facebook else Google, u)
  {
    match provider
    case Google => u.(googleId := Some(p.id), avatar := p.photos[0])
    case Facebook => u.(facebookId := Some(p.id), avatar := p.photos[0])
  }

  /** The body of `new User({...})` for a first sign-in: the provider id,
      display name, first email (Facebook: null when the profile has none),
      first photo, verified, and the provider's name. */
  function FreshInput(provider: Provider, p: Profile): UserInput
    requires p.photos != []
  {
    UserInput(
      Some(p.displayName),
      if p.emails != [] then Some(p.emails[0]) else None,
      None,
      if provider == Google then Some(p.id) else None,
      if provider == Facebook then Some(p.id) else None,
      Some(if provider == Google then "google" else "facebook"),
      Some(true),
      None,
      Some(p.photos[0]))
  }

  /** What a verify callback does. Reading the first entry of an empty
      `emails` or `photos` list throws, and the error, like a failed `save`,
      goes to `done` (ServerError) with nothing stored. Google reads the
      first email before any other step; Facebook looks up the email only
      when there is one. */
  function Resolve(provider: Provider, us: seq<User>, next: nat, p: Profile): (r: Login)
    ensures r.result.Err? ==> r.result.failure == ServerError && r.users == us && r.nextId == next
    ensures r.result.Ok? ==> ProviderId(provider, r.result.value) == Some(p.id)
    ensures r.result.Ok? ==> exists k :: 0 <= k < |r.users| && r.users[k] == r.result.value
    ensures r.nextId == next || (r.nextId == next + 1 && r.users == us + [r.result.value])
  {
    match Seqs.FindIndex(us, WithProviderId(provider, p.id))
    case Some(k) => Login(Ok(us[k]), us, next)
    case None =>
      if provider == Google && p.emails == [] then Login(Err(ServerError), us, next)
      else
        match (if p.emails != [] then Seqs.FindIndex(us, WithEmail(p.emails[0])) else None)
        case Some(k) =>
          if p.photos == [] then Login(Err(ServerError), us, next)
          else
            var u := Link(provider, us[k], p);
            if CanReplace(us, k, u) then
              assert us[k := u][k] == u;
              Login(Ok(u), us[k := u], next)
            else Login(Err(ServerError), us, next)
        case None =>
          if p.photos == [] then Login(Err(ServerError), us, next)
          else
            var u := New(next, FreshInput(provider, p));
            if CanInsert(us, u) then
              assert (us + [u])[|us|] == u;
              Login(Ok(u), us + [u], next + 1)
            else Login(Err(ServerError), us, next)
  }

  /** A user already signed in with the provider is returned unchanged, and
      that lookup wins over the email lookup. */
  lemma ResolveById(provider: Provider, us: seq<User>, next: nat, p: Profile, k: nat)
    requires k < |us| && ProviderId(provider, us[k]) == Some(p.id)
    requires forall j :: 0 <= j < k ==> ProviderId(provider, us[j]) != Some(p.id)
    ensures Resolve(provider, us, next, p) == Login(Ok(us[k]), us, next)
  {
    var f := Seqs.FindIndex(us, WithProviderId(provider, p.id));
    assert f.Some?;
  }

  /** Otherwise the user with the profile's first email (after the email
      normalisation) gets the provider id and avatar, and in a consistent
      collection that save always succeeds: the linked user stays valid
      (the provider's id is never empty, so no password is required of it)
      and nobody else holds its email or the new provider id. */
  lemma ResolveLinks(provider: Provider, us: seq<User>, next: nat, p: Profile, k: nat)
    requires UniqueKeys(us) && forall i :: 0 <= i < |us| ==> Valid(us[i])
    requires forall j :: 0 <= j < |us| ==> ProviderId(provider, us[j]) != Some(p.id)
    requires p.id != "" && p.emails != [] && p.photos != []
    requires k < |us| && us[k].email == Some(NormalizeEmail(p.emails[0]))
    ensures Resolve(provider, us, next, p) == Login(Ok(Link(provider, us[k], p)), us[k := Link(provider, us[k], p)], next)
  {
    var byId := Seqs.FindIndex(us, WithProviderId(provider, p.id));
    assert byId.None?;
    var f := Seqs.FindIndex(us, WithEmail(p.emails[0]));
    assert f == Some(k) by {
      if f.Some? && f.value != k {
        assert us[f.value].email == us[k].email;
        assert Clash(us[f.value], us[k]) && Clash(us[k], us[f.value]);
      }
    }
    var u := Link(provider, us[k], p);
    forall i | 0 <= i < |us| && i != k ensures !Clash(us[i], u) {
      assert !Clash(us[i], us[k]) && !Clash(us[k], us[i]);
    }
  }

  /** Otherwise a new user is created: signed in with the provider, verified,
      with the profile's name, email and first photo and the next id. */
  lemma ResolveCreates(provider: Provider, us: seq<User>, next: nat, p: Profile)
    requires forall j :: 0 <= j < |us| ==> ProviderId(provider, us[j]) != Some(p.id)
    requires forall j :: 0 <= j < |us| ==> p.emails == [] || us[j].email != Some(NormalizeEmail(p.emails[0]))
    requires provider == Google ==> p.emails != []
    requires p.photos != []
    ensures var u := New(next, FreshInput(provider, p));
      && u.id == next && u.isVerified && ProviderId(provider, u) == Some(p.id)
      && u.provider == (if provider == Google then "google" else "facebook")
      && u.avatar == p.photos[0] && u.role == "user" && u.password.None?
      && (p.emails != [] ==> u.email == Some(NormalizeEmail(p.emails[0])))
      && Resolve(provider, us, next, p)
         == if CanInsert(us, u) then Login(Ok(u), us + [u], next + 1) else Login(Err(ServerError), us, next)
  {
    var f := Seqs.FindIndex(us, WithProviderId(provider, p.id));
    assert f.None?;
    if p.emails != [] {
      var g := Seqs.FindIndex(us, WithEmail(p.emails[0]));
      assert g.None?;
    }
  }

  /** A Facebook profile without an email that matches nobody by id creates
      a user whose email is null, which the required validator refuses. */
  lemma FacebookWithoutEmailFails(us: seq<User>, next: nat, p: Profile)
    requires forall j :: 0 <= j < |us| ==> us[j].facebookId != Some(p.id)
    requires p.emails == []
    ensures Resolve(Facebook, us, next, p).result == Err(ServerError)
  {
    var f := Seqs.FindIndex(us, WithProviderId(Facebook, p.id));
    assert f.None?;
  }

  /** Every outcome keeps the users collection consistent: ids unique and
      below the counter, every user valid, no clash on a unique index. */
  lemma ResolveKeepsInvariant(provider: Provider, us: seq<User>, next: nat, p: Profile)
    requires Database.KeysBelow(us, Database.UserKey, next)
    requires UniqueKeys(us) && forall i :: 0 <= i < |us| ==> Valid(us[i])
    ensures var r := Resolve(provider, us, next, p);
      && Database.KeysBelow(r.users, Database.UserKey, r.nextId)
      && UniqueKeys(r.users)
      && forall i :: 0 <= i < |r.users| ==> Valid(r.users[i])
  {
    var byId := Seqs.FindIndex(us, WithProviderId(provider, p.id));
    if byId.None? && !(provider == Google && p.emails == []) && p.photos != [] {
      var byEmail := if p.emails != [] then Seqs.FindIndex(us, WithEmail(p.emails[0])) else None;
      if byEmail.Some? {
        var k := byEmail.value;
        var u := Link(provider, us[k], p);
        if CanReplace(us, k, u) {
          ReplaceKeepsUniqueKeys(us, k, u);
          Database.ReplaceKeepsKeys(us, k, u, Database.UserKey, next);
        }
      } else {
        var u := New(next, FreshInput(provider, p));
        if CanInsert(us, u) {
          InsertKeepsUniqueKeys(us, u);
          Database.AppendKeepsKeys(us, u, Database.UserKey, next);
        }
      }
    }
  }

  /** Signing in again with the same profile right after a successful
      sign-in returns the same user and changes nothing. */
  lemma ResolveStable(provider: Provider, us: seq<User>, next: nat, p: Profile)
    requires Database.KeysBelow(us, Database.UserKey, next)
    requires UniqueKeys(us) && forall i :: 0 <= i < |us| ==> Valid(us[i])
    requires Resolve(provider, us, next, p).result.Ok?
    ensures var r := Resolve(provider, us, next, p);
      Resolve(provider, r.users, r.nextId, p) == Login(r.result, r.users, r.nextId)
  {
    var r := Resolve(provider, us, next, p);
    ResolveKeepsInvariant(provider, us, next, p);
    var u := r.result.value;
    var k :| 0 <= k < |r.users| && r.users[k] == u;
    var f := Seqs.FindIndex(r.users, WithProviderId(provider, p.id));
    assert f == Some(k) by {
      if f.Some? && f.value != k {
        var j := f.value;
        assert ProviderId(provider, r.users[j]) == ProviderId(provider, u);
        assert Clash(r.users[j], r.users[k]) && Clash(r.users[k], r.users[j]);
      }
    }
  }

  /** The verify callback run against the store: the user found, linked or
      created, as Resolve describes. */
  method Verify(db: Database.Store, provider: Provider, p: Profile) returns (r: Result<User>)
    requires db.Valid()
    modifies db
    ensures db.Valid()
    ensures var login := Resolve(provider, old(db.users), old(db.nextId), p);
      r == login.result && db.users == login.users && db.nextId == login.nextId
    ensures db.cities == old(db.cities) && db.places == old(db.places) && db.reviews == old(db.reviews)
  {
    ResolveKeepsInvariant(provider, db.users, db.nextId, p);
    var byId := Seqs.FindIndex(db.users, WithProviderId(provider, p.id));
    if byId.Some? {
      return Ok(db.users[byId.value]);
    }
    if provider == Google && p.emails == [] {
      return Err(ServerError);
    }
    var byEmail := if p.emails != [] then Seqs.FindIndex(db.users, WithEmail(p.emails[0])) else None;
    if p.photos == [] {
      return Err(ServerError);
    }
    if byEmail.Some? {
      var k := byEmail.value;
      var u := Link(provider, db.users[k], p);
      if !CanReplace(db.users, k, u) {
        return Err(ServerError);
      }
      db.users := db.users[k := u];
      return Ok(u);
    }
    var u := New(db.nextId, FreshInput(provider, p));
    if !CanInsert(db.users, u) {
      return Err(ServerError);
    }
    db.users := db.users + [u];
    db.nextId := db.nextId + 1;
    r := Ok(u);
  }

  /** `serializeUser`: the session keeps only the user's id. */
  function Serialize(u: User): Id {
    u.id
  }

  /** `deserializeUser`: `findById`, which yields null for an id no user
      has. */
  function Deserialize(us: seq<User>, id: Id): (r: Option<User>)
    ensures r.Some? ==> r.value in us && r.value.id == id
    ensures r.None? ==> forall i :: 0 <= i < |us| ==> us[i].id != id
  {
    match Database.Find(us, Database.UserKey, id)
    case None => None
    case Some(k) => Some(us[k])
  }

  /** With unique ids, deserializing a stored user's session id gives that
      user back. */
  lemma SessionRoundTrip(us: seq<User>, next: nat, k: nat)
    requires Database.KeysBelow(us, Database.UserKey, next) && k < |us|
    ensures Deserialize(us, Serialize(us[k])) == Some(us[k])
  {
    Database.FindUnique(us, Database.UserKey, next, us[k].id, k);
  }
}
