/**
 * The newer server's Levelhead integration: a player's client publishes
 * the song it is playing, and the Levelhead service, holding a 96-character
 * shared secret, reads it back.
 */
module LevelheadRoutes {
  import opened Wrappers
  import opened Ids
  import opened Schema
  import opened Requests
  import Store
  import opened Database

  /** The Levelhead service presented the configured shared secret. */
  predicate SharedSecretMatches(secret: Option<string>, configuredSecret: string) {
    HasLength(secret, LevelheadSecretLength) && secret.value == configuredSecret
  }

  /**
   * `/api/levelhead/songInformation`: a wrong shared secret is hidden behind
   * NotFound; otherwise the player's published song, or BadRequest when the
   * player is unknown or publishes none. Nothing changes.
   */
  method SongInformation(db: MMDatabase, uuid: Option<string>, secret: Option<string>, configuredSecret: string)
    returns (r: Response)
    requires db.Valid()
    ensures !HasLength(uuid, UuidLength) ==> r == BadRequest
    ensures HasLength(uuid, UuidLength) && !SharedSecretMatches(secret, configuredSecret) ==> r == NotFound
    ensures HasLength(uuid, UuidLength) && SharedSecretMatches(secret, configuredSecret) ==>
      r == (if uuid.value in db.users && db.users[uuid.value].levelheadTrack.Some?
            then Ok(LevelheadInfo(db.users[uuid.value].levelheadTrack.value))
            else BadRequest)
  {
    if !HasLength(uuid, UuidLength) {
      return BadRequest;
    }
    if secret.None? || |secret.value| != LevelheadSecretLength || secret.value != configuredSecret {
      return NotFound;
    }
    var user := db.GetUser(uuid.value);
    if user.None? {
      return BadRequest;
    }
    if user.value.levelheadTrack.Some? {
      r := Ok(LevelheadInfo(user.value.levelheadTrack.value));
    } else {
      r := BadRequest;
    }
  }

  /**
   * `/api/levelhead/update`: a caller past the session guard replaces their
   * published song with the parsed `track` (None when the field is absent),
   * and nothing else of the store changes.
   */
  method Update(db: MMDatabase, uuid: Option<string>, secret: Option<string>, track: Option<LevelheadTrack>)
    returns (r: Response)
    requires db.Valid()
    modifies db
    ensures db.Valid()
    ensures !Authorised(old(db.Model()), uuid, secret) ==>
      r == BadRequest && db.Model() == old(db.Model())
    ensures Authorised(old(db.Model()), uuid, secret) ==>
      && r == Ok(Message("OK"))
      && db.Model() == Store.PutUser(old(db.Model()), old(db.users[uuid.value]).(levelheadTrack := track))
      && uuid.value in db.users && db.users[uuid.value].levelheadTrack == track
  {
    if !HasLength(uuid, UuidLength) || !HasLength(secret, SecretLength) {
      return BadRequest;
    }
    var user := db.GetUser(uuid.value);
    if user.None? {
      return BadRequest;
    }
    if user.value.requestSecret != secret.value {
      return BadRequest;
    }
    db.UpdateUser(user.value.(levelheadTrack := track));
    r := Ok(Message("OK"));
  }
}
