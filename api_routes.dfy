/**
 * The newer server's account routes: `/api/register` (log in a known
 * player, or create a record for a new one, after the outside identity
 * services vouch for them) and `/api/offline`. The answers of the two
 * outside services are parameters.
 */
module ApiRoutes {
  import opened Wrappers
  import opened Ids
  import opened Schema
  import opened Requests
  import Store
  import opened Database

  /** Ashcon's profile lookup: the player's dashed uuid and name. */
  datatype AshconResponse = AshconResponse(uuid: Option<string>, username: Option<string>)

  /** Mojang's `hasJoined` answer: the player's undashed id and name. */
  datatype SessionResponse = SessionResponse(id: Option<string>, name: Option<string>)

  /** The fields `/api/register` insists on before doing anything. */
  predicate RegisterFields(uuid: Option<string>, currentMod: Option<string>, serverId: Option<string>) {
    HasLength(uuid, UuidLength) && currentMod.Some? && serverId.Some?
  }

  /** Mojang vouches for the player: a body whose id is the request uuid without dashes and whose name is the expected one. */
  predicate MojangConfirms(answer: Option<SessionResponse>, uuid: string, username: string) {
    answer.Some? && answer.value.id == Some(StripDashes(uuid)) && answer.value.name == Some(username)
  }

  /** Ashcon knows the player: a body with a name and with the request's own uuid. */
  predicate AshconConfirms(answer: Upstream<AshconResponse>, uuid: string) {
    answer.Answered? && answer.body.Some? &&
    answer.body.value.username.Some? && answer.body.value.uuid == Some(uuid)
  }

  /**
   * `/api/register`. A known player vouched for by Mojang under their stored
   * name is logged in; an unknown player whom Ashcon knows and Mojang vouches
   * for under Ashcon's name gets a new record. Either way the response
   * carries the session secret that now passes the guard.
   */
  method Register(db: MMDatabase, uuid: Option<string>, currentMod: Option<string>, serverId: Option<string>,
                  ashcon: Upstream<AshconResponse>, mojang: Upstream<SessionResponse>, newSecret: string)
    returns (r: Response)
    requires db.Valid() && IsCanonicalUuid(newSecret)
    modifies db
    ensures db.Valid()
    ensures !RegisterFields(uuid, currentMod, serverId) ==>
      r == BadRequest && db.Model() == old(db.Model())
    ensures RegisterFields(uuid, currentMod, serverId) && uuid.value in old(db.users) ==>
      if mojang.Failed? then
        r == InternalError && db.Model() == old(db.Model())
      else if !MojangConfirms(mojang.body, uuid.value, old(db.users[uuid.value].username)) then
        r == BadRequest && db.Model() == old(db.Model())
      else
        r == Ok(SecretIssued(newSecret)) && db.Model() == Store.Login(old(db.Model()), uuid.value, newSecret).0
    ensures RegisterFields(uuid, currentMod, serverId) && uuid.value !in old(db.users) ==>
      if !AshconConfirms(ashcon, uuid.value) || mojang.Failed? then
        r == InternalError && db.Model() == old(db.Model())
      else if !MojangConfirms(mojang.body, uuid.value, ashcon.body.value.username.value) then
        r == BadRequest && db.Model() == old(db.Model())
      else
        var username := ashcon.body.value.username.value;
        r == Ok(SecretIssued(newSecret)) &&
        db.Model() == Store.CreateUser(old(db.Model()), uuid.value, username, currentMod.value, newSecret).0
  {
    if !HasLength(uuid, UuidLength) || currentMod.None? || serverId.None? {
      return BadRequest;
    }
    var user := db.GetUser(uuid.value);
    if user.Some? {
      if mojang.Failed? {
        return InternalError;
      }
      if !MojangConfirms(mojang.body, uuid.value, user.value.username) {
        return BadRequest;
      }
      var secret := db.LoginUser(uuid.value, newSecret);
      r := Ok(SecretIssued(secret));
    } else {
      if ashcon.Failed? || ashcon.body.None? {
        return InternalError;
      }
      var profile := ashcon.body.value;
      if profile.username.None? {
        return InternalError;
      }
      if profile.uuid.None? || profile.uuid.value != uuid.value {
        return InternalError;
      }
      if mojang.Failed? {
        return InternalError;
      }
      if !MojangConfirms(mojang.body, uuid.value, profile.username.value) {
        return BadRequest;
      }
      var secret := db.CreateUser(uuid.value, profile.username.value, currentMod.value, newSecret);
      r := Ok(SecretIssued(secret.value));
    }
  }

  /**
   * `/api/offline`: a caller past the session guard is logged out (see
   * `Store.OfflineUser`) and answered OK; the secret they presented stops
   * passing the guard.
   */
  method Offline(db: MMDatabase, uuid: Option<string>, secret: Option<string>) returns (r: Response)
    requires db.Valid()
    modifies db
    ensures db.Valid()
    ensures !Authorised(old(db.Model()), uuid, secret) ==>
      r == BadRequest && db.Model() == old(db.Model())
    ensures Authorised(old(db.Model()), uuid, secret) ==>
      && r == Ok(Message("OK"))
      && !Store.SessionGuard(db.Model(), uuid.value, secret.value)
      && exists found :: Store.FoundBy(old(db.Model()), uuid.value, found) &&
           db.Model() == Store.OfflineUser(old(db.Model()), old(db.users[uuid.value]), found)
  {
    if !HasLength(uuid, UuidLength) || !HasLength(secret, SecretLength) {
      return BadRequest;
    }
    var user := db.GetUser(uuid.value);
    if user.None? {
      return BadRequest;
    }
    if user.value.requestSecret != secret.value {
      return BadRequest;
    }
    ghost var found := db.OfflineUser(user.value);
    r := Ok(Message("OK"));
  }
}
