/**
 * The older server's `Database`: the `users` collection behind
 * getUser/insertUser/updateUser, together with the `partiesCollection` the
 * party code reads and writes, both as maps updated in place. Each method
 * is proved to move the store as the matching function of LegacyStore says.
 */
module LegacyMongo {
  import opened Wrappers
  import opened Ids
  import opened LegacyStore

  class Database {
    var users: map<string, ModUser>
    var parties: map<string, MediaModParty>

    /** The store as a value. */
    function Model(): Db
      reads this
    {
      Db(users, parties)
    }

    ghost predicate Valid()
      reads this
    {
      LegacyStore.Valid(Model())
    }

    constructor ()
      ensures Valid() && users == map[] && parties == map[]
    {
      users := map[];
      parties := map[];
    }

    /** `getUser`: a lookup by id that changes nothing. */
    function GetUser(uuid: string): (r: Option<ModUser>)
      reads this
      requires Valid()
      ensures r.Some? <==> uuid in users
      ensures r.Some? ==> r.value == users[uuid] && r.value.id == uuid
    {
      if uuid in users then Some(users[uuid]) else None
    }

    /** `partiesCollection.findOneById`: a lookup by code that changes nothing. */
    function FindParty(code: string): (r: Option<MediaModParty>)
      reads this
      requires Valid()
      ensures r.Some? <==> code in parties
      ensures r.Some? ==> r.value == parties[code] && r.value.id == code && IsPartyCode(code)
    {
      if code in parties then Some(parties[code]) else None
    }

    method InsertUser(user: ModUser)
      requires Valid()
      modifies this
      ensures Valid()
      ensures Model() == LegacyStore.InsertUser(old(Model()), user)
    {
      if user.id !in users {
        users := users[user.id := user];
      }
    }

    method UpdateUser(user: ModUser)
      requires Valid()
      modifies this
      ensures Valid()
      ensures Model() == PutUser(old(Model()), user)
    {
      if user.id in users {
        users := users[user.id := user];
      }
    }

    method UpdateParty(party: MediaModParty)
      requires Valid()
      modifies this
      ensures Valid()
      ensures Model() == PutParty(old(Model()), party)
    {
      if party.id in parties {
        parties := parties[party.id := party];
      }
    }
  }
}
