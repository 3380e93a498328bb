/**
 * `MMDatabase`: the newer server's store as an object whose two
 * collections are updated in place. Each method is proved to move the store
 * exactly as the matching function of module Store says.
 */
module Database {
  import opened Wrappers
  import opened Ids
  import opened Schema
  import Store

  class MMDatabase {
    var users: map<string, User>
    var parties: map<string, Party>

    /** The store as a value. */
    function Model(): Store.Db
      reads this
    {
      Store.Db(users, parties)
    }

    ghost predicate Valid()
      reads this
    {
      Store.Valid(Model())
    }

    constructor ()
      ensures Valid() && users == map[] && parties == map[]
    {
      users := map[];
      parties := map[];
    }

    /** `getUser`: a lookup by id that changes nothing. */
    function GetUser(uuid: string): (r: Option<User>)
      reads this
      requires Valid()
      ensures r.Some? <==> uuid in users
      ensures r.Some? ==> r.value == users[uuid] && r.value.id == uuid
    {
      if uuid in users then Some(users[uuid]) else None
    }

    /** `getParty`: a lookup by code that changes nothing. */
    function GetParty(code: string): (r: Option<Party>)
      reads this
      requires Valid()
      ensures r.Some? <==> code in parties
      ensures r.Some? ==> r.value == parties[code] && r.value.id == code && IsPartyCode(code)
    {
      if code in parties then Some(parties[code]) else None
    }

    method UpdateUser(user: User)
      requires Valid()
      modifies this
      ensures Valid()
      ensures Model() == Store.PutUser(old(Model()), user)
    {
      if user.id in users {
        users := users[user.id := user];
      }
    }

    method UpdateParty(party: Party)
      requires Valid()
      modifies this
      ensures Valid()
      ensures Model() == Store.PutParty(old(Model()), party)
    {
      if party.id in parties {
        parties := parties[party.id := party];
      }
    }

    method CreateUser(uuid: string, username: string, currentMod: string, newSecret: string) returns (secret: Option<string>)
      requires Valid() && IsCanonicalUuid(newSecret)
      modifies this
      ensures Valid()
      ensures (Model(), secret) == Store.CreateUser(old(Model()), uuid, username, currentMod, newSecret)
    {
      if uuid in users {
        return None;
      }
      var user := User(uuid, username, newSecret, [currentMod], true, None);
      users := users[uuid := user];
      secret := Some(user.requestSecret);
    }

    method LoginUser(uuid: string, newSecret: string) returns (secret: string)
      requires Valid() && IsCanonicalUuid(newSecret)
      modifies this
      ensures Valid()
      ensures (Model(), secret) == Store.Login(old(Model()), uuid, newSecret)
    {
      var found := GetUser(uuid);
      if found.None? {
        return "";
      }
      var user := found.value.(online := true, requestSecret := newSecret);
      UpdateUser(user);
      secret := user.requestSecret;
    }

    /**
     * `offlineUser`, with the corrected delete: a party the user hosts is
     * deleted by the code it was found under (the source's host-record match
     * is `Store.OfflineUserAsWritten`). Which party the store's `findOne`
     * picks, when the user is listed in several, is its own choice; `found`
     * reports it.
     */
    method OfflineUser(user: User) returns (ghost found: Option<string>)
      requires Valid()
      modifies this
      ensures Valid()
      ensures Store.FoundBy(old(Model()), user.id, found)
      ensures Model() == Store.OfflineUser(old(Model()), user, found)
    {
      found := None;
      if code :| code in parties && user.id in parties[code].participants {
        found := Some(code);
        var party := parties[code];
        if party.host.id == user.id {
          parties := parties - {code};
        } else {
          UpdateParty(Store.Without(party, user.id));
        }
      }
      UpdateUser(Store.SignedOut(user));
    }

    /**
     * `generatePartyCode`: retries the drawn codes in order until one is
     * not already a party's key, and reports None when every draw collides.
     */
    method GeneratePartyCode(candidates: seq<string>) returns (code: Option<string>)
      requires AllPartyCodes(candidates)
      ensures code == FirstFreeCode(parties.Keys, candidates)
      ensures code.Some? ==> IsPartyCode(code.value) && code.value !in parties
      ensures code.None? ==> forall i :: 0 <= i < |candidates| ==> candidates[i] in parties
    {
      var i := 0;
      while i < |candidates|
        invariant 0 <= i <= |candidates|
        invariant FirstFreeCode(parties.Keys, candidates) == FirstFreeCode(parties.Keys, candidates[i..])
      {
        assert candidates[i..][1..] == candidates[i + 1..];
        if candidates[i] !in parties {
          FirstFreeCodeIsPartyCode(parties.Keys, candidates);
          return Some(candidates[i]);
        }
        i := i + 1;
      }
      return None;
    }

    method CreateParty(uuid: string, track: Option<Track>, candidates: seq<string>, newSecret: string) returns (result: Store.CreateResult)
      requires Valid() && IsCanonicalUuid(newSecret) && AllPartyCodes(candidates)
      modifies this
      ensures Valid()
      ensures (Model(), result) == Store.CreateParty(old(Model()), uuid, track, candidates, newSecret)
    {
      var hostUser := GetUser(uuid);
      if hostUser.None? {
        return Store.HostUnknown;
      }
      var code := GeneratePartyCode(candidates);
      if code.None? {
        return Store.CodesExhausted;
      }
      var party := Party(code.value, hostUser.value, newSecret, [uuid], track);
      parties := parties[code.value := party];
      result := Store.Created(party.requestSecret, party.id);
    }

    method LeaveParty(uuid: string, partyCode: string, partySecret: Option<string>) returns (success: bool)
      requires Valid()
      modifies this
      ensures Valid()
      ensures (Model(), success) == Store.LeaveParty(old(Model()), uuid, partyCode, partySecret)
    {
      var party := GetParty(partyCode);
      if party.None? {
        return false;
      }
      var user := GetUser(uuid);
      if user.None? {
        return false;
      }
      if party.value.host.id == user.value.id && Some(party.value.requestSecret) == partySecret {
        parties := parties - {partyCode};
      } else if uuid in party.value.participants {
        UpdateParty(Store.Without(party.value, uuid));
      }
      return true;
    }

    method JoinParty(uuid: string, partyCode: string) returns (joined: Option<Party>)
      requires Valid()
      modifies this
      ensures Valid()
      ensures (Model(), joined) == Store.JoinParty(old(Model()), uuid, partyCode)
    {
      var party := GetParty(partyCode);
      if party.None? {
        return None;
      }
      var updated := party.value.(participants := party.value.participants + [uuid]);
      parties := parties[partyCode := updated];
      return Some(updated);
    }
  }
}
