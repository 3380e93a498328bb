/**
 * The decision logic of the older server's routes (`Main.kt` in the
 * dev.cbyrne tree). These routes take undashed 32-character uuids; the
 * account routes accept any uuid that is 32 characters once its dashes are
 * removed and look the player up by that stripped form.
 */
module LegacyRoutes {
  import opened Wrappers
  import opened Ids
  import opened Requests
  import opened LegacyStore
  import opened LegacyMongo
  import opened LegacyParties

  function StartResponse(outcome: StartOutcome): Response {
    match outcome
    case AlreadyParticipating => BadRequest
    case CodesExhausted => InternalError
    case Started(party) => Ok(PartyCredentials(party.requestSecret, party.id))
  }

  /** `/startParty`: a known player not yet in any party starts one and gets its code and secret. */
  method StartParty(database: Database, manager: PartyManager, uuid: Option<string>,
                    candidates: seq<string>, newSecret: string) returns (r: Response)
    requires manager.database == database && database.Valid() && AllPartyCodes(candidates)
    modifies database
    ensures database.Valid()
    ensures !HasLength(uuid, StrippedUuidLength) || uuid.value !in old(database.users) ==>
      r == BadRequest && database.Model() == old(database.Model())
    ensures HasLength(uuid, StrippedUuidLength) && uuid.value in old(database.users) ==>
      var (after, outcome) := LegacyStore.StartParty(old(database.Model()), old(database.users[uuid.value]), candidates, newSecret);
      database.Model() == after && r == StartResponse(outcome)
  {
    if uuid.None? || |uuid.value| != StrippedUuidLength {
      return BadRequest;
    }
    var user := database.GetUser(uuid.value);
    if user.None? {
      return BadRequest;
    }
    var outcome := manager.StartParty(user.value, candidates, newSecret);
    r := StartResponse(outcome);
  }

  /** `/joinParty`: no lookup of the player and no secret; any well-sized uuid joins a known code. */
  method JoinParty(database: Database, manager: PartyManager, uuid: Option<string>, code: Option<string>)
    returns (r: Response)
    requires manager.database == database && database.Valid()
    modifies database
    ensures database.Valid()
    ensures !HasLength(uuid, StrippedUuidLength) || !HasLength(code, CodeLength) ==>
      r == BadRequest && database.Model() == old(database.Model())
    ensures HasLength(uuid, StrippedUuidLength) && HasLength(code, CodeLength) ==>
      var (after, joined) := LegacyStore.JoinParty(old(database.Model()), code.value, uuid.value);
      database.Model() == after && r == (if joined then Ok(Empty) else BadRequest)
  {
    if uuid.None? || code.None? {
      return BadRequest;
    }
    if |uuid.value| != StrippedUuidLength || |code.value| != CodeLength {
      return BadRequest;
    }
    r := manager.JoinParty(code.value, uuid.value);
  }

  /** The fields `/songChange` insists on: all present, uuid 32, code 6 and secret 36 characters. */
  predicate SongChangeFields(uuid: Option<string>, code: Option<string>, secret: Option<string>, trackId: Option<string>) {
    HasLength(uuid, StrippedUuidLength) && HasLength(code, CodeLength) &&
    HasLength(secret, SecretLength) && trackId.Some?
  }

  /**
   * `/songChange`: only the party's host, presenting the party's secret,
   * sets the track; anyone else on a known party is Forbidden and the party
   * stays as it was.
   */
  method SongChange(database: Database, uuid: Option<string>, code: Option<string>, secret: Option<string>,
                    trackId: Option<string>) returns (r: Response)
    requires database.Valid()
    modifies database
    ensures database.Valid()
    ensures !SongChangeFields(uuid, code, secret, trackId) || code.value !in old(database.parties) ==>
      r == BadRequest && database.Model() == old(database.Model())
    ensures SongChangeFields(uuid, code, secret, trackId) && code.value in old(database.parties) ==>
      var party := old(database.parties[code.value]);
      if MayChangeSong(party, uuid.value, secret.value) then
        r == Ok(Empty) && database.Model() == PutParty(old(database.Model()), party.(track := trackId.value))
      else
        r == Forbidden && database.Model() == old(database.Model())
  {
    if uuid.None? || code.None? || trackId.None? || secret.None? {
      return BadRequest;
    }
    if |uuid.value| != StrippedUuidLength || |code.value| != CodeLength || |secret.value| != SecretLength {
      return BadRequest;
    }
    var party := database.FindParty(code.value);
    if party.None? {
      return BadRequest;
    }
    if party.value.host.id == uuid.value && party.value.requestSecret == secret.value {
      database.UpdateParty(party.value.(track := trackId.value));
      r := Ok(Empty);
    } else {
      r := Forbidden;
    }
  }

  /** `/leaveParty`: validates the uuid and answers OK; leaving is not implemented, so nothing changes. */
  function LeaveParty(uuid: Option<string>): (r: Response)
    ensures r == Ok(Empty) <==> HasLength(uuid, StrippedUuidLength)
    ensures r != Ok(Empty) ==> r == BadRequest
  {
    if uuid.None? || |uuid.value| != StrippedUuidLength then BadRequest else Ok(Empty)
  }

  /** The uuid is present and is 32 characters once its dashes are removed. */
  predicate StripsToId(uuid: Option<string>) {
    uuid.Some? && |StripDashes(uuid.value)| == StrippedUuidLength
  }

  /**
   * A player's canonical dashed uuid and its undashed form both pass the
   * account routes' length check and reach the same record.
   */
  lemma BothUuidFormsReachSameRecord(uuid: string)
    requires IsCanonicalUuid(uuid)
    ensures StripsToId(Some(uuid)) && StripsToId(Some(StripDashes(uuid)))
    ensures StripDashes(StripDashes(uuid)) == StripDashes(uuid)
  {
    CanonicalUuidStripsTo32(uuid);
    StripDashesIdempotent(uuid);
  }

  /**
   * `/offline`: no secret is checked. A known player (looked up by the
   * stripped uuid) is marked offline and one party listing them, hosted by
   * them or not, is deleted.
   */
  method Offline(database: Database, manager: PartyManager, uuid: Option<string>) returns (r: Response)
    requires manager.database == database && database.Valid()
    modifies database
    ensures database.Valid()
    ensures !StripsToId(uuid) || StripDashes(uuid.value) !in old(database.users) ==>
      r == BadRequest && database.Model() == old(database.Model())
    ensures StripsToId(uuid) && StripDashes(uuid.value) in old(database.users) ==>
      && r == Ok(Message("Success"))
      && exists stopped :: StoppedBy(old(database.Model()), StripDashes(uuid.value), stopped) &&
           database.Model() == GoOffline(old(database.Model()), StripDashes(uuid.value), stopped)
  {
    if uuid.None? {
      return BadRequest;
    }
    var id := StripDashes(uuid.value);
    if |id| != StrippedUuidLength {
      return BadRequest;
    }
    var user := database.GetUser(id);
    if user.None? {
      return BadRequest;
    }
    database.UpdateUser(user.value.(online := false));
    ghost var stopped := manager.StopParty(id);
    assert StoppedBy(old(database.Model()), id, stopped);
    r := Ok(Message("Success"));
  }

  /** Ashcon's profile lookup: the player's uuid and name. */
  datatype AshconResponse = AshconResponse(uuid: Option<string>, username: Option<string>)

  /**
   * The fields `/register` insists on before any lookup: uuid, mod and
   * version present, the mod and the version known, and the uuid 32
   * characters once stripped.
   */
  predicate RegisterFields(uuid: Option<string>, currentMod: Option<string>, version: Option<string>,
                           knownVersions: set<string>) {
    uuid.Some? && currentMod.Some? && version.Some? &&
    FindMod(currentMod.value).Some? && version.value in knownVersions &&
    |StripDashes(uuid.value)| == StrippedUuidLength
  }

  /**
   * `/register`. A known player gets the current mod added to their mods
   * when it is missing. An unknown player is inserted, online and with the
   * current mod, once Ashcon answers with a name and a uuid that strips to
   * the same id; an Ashcon call that fails is NotFound, an answer without a
   * name or uuid, or with another uuid, is BadRequest.
   */
  method Register(database: Database, uuid: Option<string>, currentMod: Option<string>, version: Option<string>,
                  knownVersions: set<string>, ashcon: Upstream<AshconResponse>) returns (r: Response)
    requires database.Valid()
    modifies database
    ensures database.Valid()
    ensures !RegisterFields(uuid, currentMod, version, knownVersions) ==>
      r == BadRequest && database.Model() == old(database.Model())
    ensures RegisterFields(uuid, currentMod, version, knownVersions) && StripDashes(uuid.value) in old(database.users) ==>
      var user := old(database.users[StripDashes(uuid.value)]);
      var mod := FindMod(currentMod.value).value;
      && r == Ok(Message("Success"))
      && database.Model() == (if mod in user.mods then old(database.Model())
                              else PutUser(old(database.Model()), user.(mods := user.mods + [mod])))
    ensures RegisterFields(uuid, currentMod, version, knownVersions) && StripDashes(uuid.value) !in old(database.users) ==>
      var id := StripDashes(uuid.value);
      if ashcon.Failed? || ashcon.body.None? then
        r == NotFound && database.Model() == old(database.Model())
      else if ashcon.body.value.username.None? || ashcon.body.value.uuid.None? ||
              StripDashes(ashcon.body.value.uuid.value) != id then
        r == BadRequest && database.Model() == old(database.Model())
      else
        var inserted := ModUser(id, ashcon.body.value.username.value, [FindMod(currentMod.value).value], true);
        r == Ok(Message("Success")) && database.Model() == LegacyStore.InsertUser(old(database.Model()), inserted)
  {
    if uuid.None? || currentMod.None? || version.None? {
      return BadRequest;
    }
    var mod := FindMod(currentMod.value);
    if mod.None? || version.value !in knownVersions {
      return BadRequest;
    }
    var id := StripDashes(uuid.value);
    if |id| != StrippedUuidLength {
      return BadRequest;
    }
    var user := database.GetUser(id);
    if user.Some? {
      if mod.value !in user.value.mods {
        database.UpdateUser(user.value.(mods := user.value.mods + [mod.value]));
      }
    } else {
      if ashcon.Failed? || ashcon.body.None? {
        return NotFound;
      }
      var profile := ashcon.body.value;
      if profile.username.None? || profile.uuid.None? {
        return BadRequest;
      }
      if StripDashes(profile.uuid.value) != id {
        return BadRequest;
      }
      database.InsertUser(ModUser(id, profile.username.value, [mod.value], true));
    }
    r := Ok(Message("Success"));
  }
}
