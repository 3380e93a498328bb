/**
 * The newer server's party routes (`/api/party/...`). Each answers
 * BadRequest for a missing or mis-sized field before any lookup, then
 * BadRequest for an unknown user or a secret that is not the stored one,
 * and only then makes its single store call or field update.
 */
module PartyRoutes {
  import opened Wrappers
  import opened Ids
  import opened Schema
  import opened Requests
  import Store
  import opened Database

  function StartResponse(created: Store.CreateResult): Response {
    match created
    case HostUnknown => BadRequest
    case CodesExhausted => InternalError
    case Created(secret, code) => Ok(PartyCredentials(secret, code))
  }

  /** `/api/party/start`: the caller becomes host of a new party and gets its secret and code. */
  method Start(db: MMDatabase, uuid: Option<string>, secret: Option<string>, track: Option<Track>,
               candidates: seq<string>, newSecret: string) returns (r: Response)
    requires db.Valid() && IsCanonicalUuid(newSecret) && AllPartyCodes(candidates)
    modifies db
    ensures db.Valid()
    ensures !Authorised(old(db.Model()), uuid, secret) ==>
      r == BadRequest && db.Model() == old(db.Model())
    ensures Authorised(old(db.Model()), uuid, secret) ==>
      var (after, created) := Store.CreateParty(old(db.Model()), uuid.value, track, candidates, newSecret);
      db.Model() == after && r == StartResponse(created) && r != BadRequest
  {
    if !HasLength(uuid, UuidLength) || !HasLength(secret, SecretLength) {
      return BadRequest;
    }
    var user := db.GetUser(uuid.value);
    if user.None? {
      return BadRequest;
    }
    if user.value.requestSecret != secret.value {
      return BadRequest;
    }
    var created := db.CreateParty(user.value.id, track, candidates, newSecret);
    r := StartResponse(created);
  }

  /** `/api/party/leave`: OK exactly when leaveParty reports success. */
  method Leave(db: MMDatabase, uuid: Option<string>, secret: Option<string>, partyCode: Option<string>,
               partySecret: Option<string>) returns (r: Response)
    requires db.Valid()
    modifies db
    ensures db.Valid()
    ensures !HasLength(partyCode, CodeLength) || !Authorised(old(db.Model()), uuid, secret) ==>
      r == BadRequest && db.Model() == old(db.Model())
    ensures HasLength(partyCode, CodeLength) && Authorised(old(db.Model()), uuid, secret) ==>
      var (after, success) := Store.LeaveParty(old(db.Model()), uuid.value, partyCode.value, partySecret);
      db.Model() == after && r == (if success then Ok(Message("Successfully left party!")) else BadRequest)
  {
    if !HasLength(uuid, UuidLength) || !HasLength(partyCode, CodeLength) || !HasLength(secret, SecretLength) {
      return BadRequest;
    }
    var user := db.GetUser(uuid.value);
    if user.None? {
      return BadRequest;
    }
    if user.value.requestSecret != secret.value {
      return BadRequest;
    }
    var success := db.LeaveParty(user.value.id, partyCode.value, partySecret);
    r := if success then Ok(Message("Successfully left party!")) else BadRequest;
  }

  /** `/api/party/status`: the party's current track; nothing changes. */
  method Status(db: MMDatabase, uuid: Option<string>, secret: Option<string>, partyCode: Option<string>)
    returns (r: Response)
    requires db.Valid()
    ensures !HasLength(partyCode, CodeLength) || !Authorised(db.Model(), uuid, secret) ==> r == BadRequest
    ensures HasLength(partyCode, CodeLength) && Authorised(db.Model(), uuid, secret) ==>
      r == (if partyCode.value in db.parties
            then Ok(TrackStatus(db.parties[partyCode.value].currentTrack))
            else BadRequest)
  {
    if !HasLength(uuid, UuidLength) || !HasLength(partyCode, CodeLength) || !HasLength(secret, SecretLength) {
      return BadRequest;
    }
    var user := db.GetUser(uuid.value);
    if user.None? {
      return BadRequest;
    }
    if user.value.requestSecret != secret.value {
      return BadRequest;
    }
    var party := db.GetParty(partyCode.value);
    if party.None? {
      return BadRequest;
    }
    r := Ok(TrackStatus(party.value.currentTrack));
  }

  /** The party exists and the presented party secret is its own. */
  predicate PartySecretMatches(db: Store.Db, partyCode: string, partySecret: string) {
    partyCode in db.parties && db.parties[partyCode].requestSecret == partySecret
  }

  /**
   * `/api/party/update`: anyone past the session guard who presents the
   * party's secret replaces its current track; the route then returns
   * without a response.
   */
  method Update(db: MMDatabase, uuid: Option<string>, secret: Option<string>, partyCode: Option<string>,
                partySecret: Option<string>, track: Option<Track>) returns (r: Response)
    requires db.Valid()
    modifies db
    ensures db.Valid()
    ensures !HasLength(partyCode, CodeLength) || !HasLength(partySecret, SecretLength) ||
            !Authorised(old(db.Model()), uuid, secret) ==>
      r == BadRequest && db.Model() == old(db.Model())
    ensures HasLength(partyCode, CodeLength) && HasLength(partySecret, SecretLength) &&
            Authorised(old(db.Model()), uuid, secret) ==>
      if PartySecretMatches(old(db.Model()), partyCode.value, partySecret.value) then
        var party := old(db.Model()).parties[partyCode.value];
        r == NoResponse && db.Model() == Store.PutParty(old(db.Model()), party.(currentTrack := track))
      else
        r == BadRequest && db.Model() == old(db.Model())
  {
    if !HasLength(uuid, UuidLength) || !HasLength(partyCode, CodeLength) || !HasLength(secret, SecretLength) {
      return BadRequest;
    }
    if !HasLength(partySecret, SecretLength) {
      return BadRequest;
    }
    var user := db.GetUser(uuid.value);
    if user.None? {
      return BadRequest;
    }
    if user.value.requestSecret != secret.value {
      return BadRequest;
    }
    var party := db.GetParty(partyCode.value);
    if party.Some? && party.value.requestSecret == partySecret.value {
      db.UpdateParty(party.value.(currentTrack := track));
      r := NoResponse;
    } else {
      r := BadRequest;
    }
  }

  /** `/api/party/join`: the caller is appended to the party, which is returned. */
  method Join(db: MMDatabase, uuid: Option<string>, secret: Option<string>, partyCode: Option<string>)
    returns (r: Response)
    requires db.Valid()
    modifies db
    ensures db.Valid()
    ensures !HasLength(partyCode, CodeLength) || !Authorised(old(db.Model()), uuid, secret) ==>
      r == BadRequest && db.Model() == old(db.Model())
    ensures HasLength(partyCode, CodeLength) && Authorised(old(db.Model()), uuid, secret) ==>
      var (after, joined) := Store.JoinParty(old(db.Model()), uuid.value, partyCode.value);
      db.Model() == after && r == (if joined.Some? then Ok(Joined(joined.value)) else BadRequest)
  {
    if !HasLength(uuid, UuidLength) || !HasLength(partyCode, CodeLength) || !HasLength(secret, SecretLength) {
      return BadRequest;
    }
    var user := db.GetUser(uuid.value);
    if user.None? {
      return BadRequest;
    }
    if user.value.requestSecret != secret.value {
      return BadRequest;
    }
    var joined := db.JoinParty(user.value.id, partyCode.value);
    r := if joined.Some? then Ok(Joined(joined.value)) else BadRequest;
  }
}
