/**
 * The older server's `PartyManager`: starts, stops and joins parties in the
 * store it is given, each method proved against the matching function of
 * LegacyStore.
 */
module LegacyParties {
  import opened Wrappers
  import opened Ids
  import opened Requests
  import opened LegacyStore
  import opened LegacyMongo

  class PartyManager {
    const database: Database

    constructor (database: Database)
      ensures this.database == database
    {
      this.database := database;
    }

    /**
     * `startParty`: refuses a host already listed in some party, otherwise
     * inserts a new party under a fresh code and returns it.
     */
    method StartParty(host: ModUser, candidates: seq<string>, newSecret: string) returns (outcome: StartOutcome)
      requires database.Valid() && AllPartyCodes(candidates)
      modifies database
      ensures database.Valid()
      ensures (database.Model(), outcome) == LegacyStore.StartParty(old(database.Model()), host, candidates, newSecret)
    {
      if code :| code in database.parties && host.id in database.parties[code].participants {
        return AlreadyParticipating;
      }
      var code := GenerateCode(candidates);
      if code.None? {
        return CodesExhausted;
      }
      var party := MediaModParty(code.value, host, newSecret, [host.id], "");
      database.parties := database.parties[code.value := party];
      outcome := Started(party);
    }

    /**
     * `stopParty`: deletes one party listing `id` among its participants.
     * Which one, when there are several, is the store's choice; `stopped`
     * reports it.
     */
    method StopParty(id: string) returns (ghost stopped: Option<string>)
      requires database.Valid()
      modifies database
      ensures database.Valid()
      ensures StoppedBy(old(database.Model()), id, stopped)
      ensures database.Model() == LegacyStore.StopParty(old(database.Model()), id, stopped)
    {
      stopped := None;
      if code :| code in database.parties && id in database.parties[code].participants {
        stopped := Some(code);
        database.parties := database.parties - {code};
      }
    }

    /** `joinParty`: BadRequest for an unknown code, otherwise `user` is appended and OK. */
    method JoinParty(code: string, user: string) returns (status: Response)
      requires database.Valid()
      modifies database
      ensures database.Valid()
      ensures var (after, joined) := LegacyStore.JoinParty(old(database.Model()), code, user);
        database.Model() == after && status == (if joined then Ok(Empty) else BadRequest)
    {
      var party := database.FindParty(code);
      if party.None? {
        return BadRequest;
      }
      database.UpdateParty(party.value.(participants := party.value.participants + [user]));
      status := Ok(Empty);
    }

    /**
     * `generateCode`: retries the drawn codes in order until one is not a
     * party's key, and reports None when every draw collides.
     */
    method GenerateCode(candidates: seq<string>) returns (code: Option<string>)
      requires AllPartyCodes(candidates)
      ensures code == FirstFreeCode(database.parties.Keys, candidates)
      ensures code.Some? ==> IsPartyCode(code.value) && code.value !in database.parties
      ensures code.None? ==> forall i :: 0 <= i < |candidates| ==> candidates[i] in database.parties
    {
      var i := 0;
      while i < |candidates|
        invariant 0 <= i <= |candidates|
        invariant FirstFreeCode(database.parties.Keys, candidates) == FirstFreeCode(database.parties.Keys, candidates[i..])
      {
        assert candidates[i..][1..] == candidates[i + 1..];
        if candidates[i] !in database.parties {
          FirstFreeCodeIsPartyCode(database.parties.Keys, candidates);
          return Some(candidates[i]);
        }
        i := i + 1;
      }
      return None;
    }
  }
}
