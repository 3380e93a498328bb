/**
 * The newer server's store as a value: its `users` and `parties`
 * collections, and each operation of MMDatabase as a function from the
 * store before to the store after, paired with what the operation returns.
 * The class in database.dfy performs these operations in place and is
 * proved against these functions; what the server promises about them is
 * proved here.
 */
module Store {
  import opened Wrappers
  import opened Ids
  import opened Lists
  import opened Schema

  datatype Db = Db(users: map<string, User>, parties: map<string, Party>)

  /** Every document sits under its own `_id`; every party sits under a well-formed code. */
  predicate Valid(db: Db) {
    (forall id :: id in db.users ==> db.users[id].id == id) &&
    (forall code :: code in db.parties ==> db.parties[code].id == code && IsPartyCode(code))
  }

  /** The check every guarded route makes: the user exists and the presented secret is the stored one. */
  predicate SessionGuard(db: Db, uuid: string, secret: string) {
    uuid in db.users && db.users[uuid].requestSecret == secret
  }

  /** Two records of the same user that agree on everything a login does not touch. */
  predicate SameProfile(a: User, b: User) {
    a.id == b.id && a.username == b.username && a.mods == b.mods && a.levelheadTrack == b.levelheadTrack
  }

  /** `updateUser`: `updateOneById(user._id, user)` replaces the record with that id, and does nothing when there is none. */
  function PutUser(db: Db, user: User): (r: Db)
    requires Valid(db)
    ensures Valid(r)
    ensures r.parties == db.parties && r.users.Keys == db.users.Keys
    ensures user.id in db.users ==> r.users[user.id] == user
    ensures forall id :: id in db.users && id != user.id ==> r.users[id] == db.users[id]
  {
    if user.id in db.users then db.(users := db.users[user.id := user]) else db
  }

  /** `updateParty`: `updateOneById(party._id, party)`, the same for parties. */
  function PutParty(db: Db, party: Party): (r: Db)
    requires Valid(db)
    ensures Valid(r)
    ensures r.users == db.users && r.parties.Keys == db.parties.Keys
    ensures party.id in db.parties ==> r.parties[party.id] == party
    ensures forall code :: code in db.parties && code != party.id ==> r.parties[code] == db.parties[code]
  {
    if party.id in db.parties then db.(parties := db.parties[party.id := party]) else db
  }

  // ---------------------------------------------------------------- users

  /**
   * `createUser`: inserts a fresh record. The unique `_id` index makes the
   * insert fail (an exception in the server) when the id is already taken;
   * that failure is the None result here.
   */
  function CreateUser(db: Db, uuid: string, username: string, currentMod: string, newSecret: string): (r: (Db, Option<string>))
    requires Valid(db) && IsCanonicalUuid(newSecret)
    ensures Valid(r.0) && r.0.parties == db.parties
    ensures uuid in db.users ==> r == (db, None)
    ensures uuid !in db.users ==> r.1 == Some(newSecret) && r.0.users.Keys == db.users.Keys + {uuid}
    ensures r.1.Some? ==>
      && |r.1.value| == SecretLength
      && SessionGuard(r.0, uuid, r.1.value)
      && r.0.users[uuid].username == username
      && r.0.users[uuid].mods == [currentMod]
      && r.0.users[uuid].online
      && r.0.users[uuid].levelheadTrack == None
    ensures forall id :: id in db.users ==> r.0.users[id] == db.users[id]
  {
    if uuid in db.users then (db, None)
    else
      var user := User(uuid, username, newSecret, [currentMod], true, None);
      (db.(users := db.users[uuid := user]), Some(user.requestSecret))
  }

  /**
   * `loginUser`: an unknown id gets "" and nothing changes; a known user
   * goes online with the new secret, which is returned.
   */
  function Login(db: Db, uuid: string, newSecret: string): (r: (Db, string))
    requires Valid(db) && IsCanonicalUuid(newSecret)
    ensures Valid(r.0) && r.0.parties == db.parties && r.0.users.Keys == db.users.Keys
    ensures uuid !in db.users ==> r == (db, "")
    ensures uuid in db.users ==>
      && r.1 == newSecret
      && SessionGuard(r.0, uuid, newSecret)
      && r.0.users[uuid].online
      && SameProfile(r.0.users[uuid], db.users[uuid])
    ensures forall id :: id in db.users && id != uuid ==> r.0.users[id] == db.users[id]
  {
    if uuid !in db.users then (db, "")
    else
      var user := db.users[uuid].(online := true, requestSecret := newSecret);
      (PutUser(db, user), user.requestSecret)
  }

  /** Logging in again revokes the secret issued before: it no longer passes the guard. */
  lemma LoginRevokesPreviousSecret(db: Db, uuid: string, newSecret: string)
    requires Valid(db) && IsCanonicalUuid(newSecret)
    requires uuid in db.users && newSecret != db.users[uuid].requestSecret
    ensures !SessionGuard(Login(db, uuid, newSecret).0, uuid, db.users[uuid].requestSecret)
  {
  }

  /** After two logins of the same user only the second secret passes the guard. */
  lemma SecondLoginRevokesFirst(db: Db, uuid: string, first: string, second: string)
    requires Valid(db) && IsCanonicalUuid(first) && IsCanonicalUuid(second) && first != second
    requires uuid in db.users
    ensures var after := Login(Login(db, uuid, first).0, uuid, second).0;
      !SessionGuard(after, uuid, first) && SessionGuard(after, uuid, second)
  {
  }

  // ------------------------------------------------------------- logging out

  /**
   * What `findOne(Party::participants contains uuid)` may return: some party
   * whose participants list the user, or None when there is no such party.
   */
  predicate FoundBy(db: Db, uuid: string, found: Option<string>) {
    match found
    case None => forall code :: code in db.parties ==> uuid !in db.parties[code].participants
    case Some(code) => code in db.parties && uuid in db.parties[code].participants
  }

  /** The record `offlineUser` writes back: the same player, logged out and with no published song. */
  function SignedOut(user: User): User {
    user.(online := false, requestSecret := "", levelheadTrack := None)
  }

  function Without(party: Party, uuid: string): Party {
    party.(participants := RemoveFirst(party.participants, uuid))
  }

  /**
   * `offlineUser`, with the hosted party deleted by its code. The party the
   * lookup found is deleted when the user is its host; otherwise one
   * occurrence of the user leaves its participants. The user record is
   * written back logged out.
   */
  function OfflineUser(db: Db, user: User, found: Option<string>): (r: Db)
    requires Valid(db) && FoundBy(db, user.id, found)
    ensures Valid(r) && r.users.Keys == db.users.Keys
    ensures user.id in db.users ==>
      && r.users[user.id].requestSecret == ""
      && !r.users[user.id].online
      && r.users[user.id].levelheadTrack == None
    ensures user.id in db.users ==> r.users[user.id] == SignedOut(user)
    ensures user.id in db.users ==>
      r.users[user.id].username == user.username && r.users[user.id].mods == user.mods
    ensures forall secret :: secret != "" ==> !SessionGuard(r, user.id, secret)
    ensures forall id :: id in db.users && id != user.id ==> r.users[id] == db.users[id]
    ensures found.None? ==> r.parties == db.parties
    ensures found.Some? && db.parties[found.value].host.id == user.id ==>
      r.parties == db.parties - {found.value}
    ensures found.Some? && db.parties[found.value].host.id != user.id ==>
      r.parties == db.parties[found.value := Without(db.parties[found.value], user.id)]
  {
    var parties :=
      match found
      case None => db.parties
      case Some(code) =>
        var party := db.parties[code];
        if party.host.id == user.id then db.parties - {code}
        else db.parties[code := Without(party, user.id)];
    PutUser(db.(parties := parties), SignedOut(user))
  }

  /**
   * What `findOneAndDelete(Party::host eq user)` may delete: a party whose
   * stored host record equals `user` in every field, or nothing when no
   * party's host record does.
   */
  predicate HostRecordMatch(db: Db, user: User, victim: Option<string>) {
    match victim
    case None => forall code :: code in db.parties ==> db.parties[code].host != user
    case Some(code) => code in db.parties && db.parties[code].host == user
  }

  /**
   * `offlineUser` as the source writes it: when the found party's host id is
   * the user's, it deletes a party whose whole stored host record equals the
   * user record it was given, not the party it found.
   */
  function OfflineUserAsWritten(db: Db, user: User, found: Option<string>, victim: Option<string>): (r: Db)
    requires Valid(db) && FoundBy(db, user.id, found) && HostRecordMatch(db, user, victim)
    ensures Valid(r)
    ensures r.users == OfflineUser(db, user, found).users
    ensures found.Some? && db.parties[found.value].host.id == user.id ==>
      r.parties == (if victim.Some? then db.parties - {victim.value} else db.parties)
  {
    var parties :=
      match found
      case None => db.parties
      case Some(code) =>
        var party := db.parties[code];
        if party.host.id == user.id then
          (if victim.Some? then db.parties - {victim.value} else db.parties)
        else db.parties[code := Without(party, user.id)];
    PutUser(db.(parties := parties), SignedOut(user))
  }

  /**
   * The discrepancy: a user registers, starts a party, registers again (a
   * new login, so a new secret) and goes offline. The party copy of the host
   * still holds the first secret, so no party's host record equals the user
   * record, and the party outlives its host's logout whatever the delete
   * picks; the corrected OfflineUser removes it.
   */
  lemma OfflineAsWrittenKeepsHostedParty(
    db: Db, uuid: string, username: string, currentMod: string,
    first: string, second: string, partySecret: string,
    track: Option<Track>, candidates: seq<string>)
    requires Valid(db) && uuid !in db.users
    requires IsCanonicalUuid(first) && IsCanonicalUuid(second) && first != second
    requires IsCanonicalUuid(partySecret) && AllPartyCodes(candidates)
    requires FirstFreeCode(db.parties.Keys, candidates).Some?
    ensures
      var db1 := CreateUser(db, uuid, username, currentMod, first).0;
      var (db2, created) := CreateParty(db1, uuid, track, candidates, partySecret);
      var db3 := Login(db2, uuid, second).0;
      && created.Created?
      && FoundBy(db3, uuid, Some(created.code))
      && db3.parties[created.code].host.id == uuid
      && (forall victim :: HostRecordMatch(db3, db3.users[uuid], victim) ==>
            created.code in OfflineUserAsWritten(db3, db3.users[uuid], Some(created.code), victim).parties)
      && created.code !in OfflineUser(db3, db3.users[uuid], Some(created.code)).parties
  {
    var db1 := CreateUser(db, uuid, username, currentMod, first).0;
    var (db2, created) := CreateParty(db1, uuid, track, candidates, partySecret);
    var db3 := Login(db2, uuid, second).0;
    var code := created.code;
    assert db3.parties[code].host == db1.users[uuid];
    assert db1.users[uuid].requestSecret == first;
    assert db3.users[uuid].requestSecret == second;
    forall victim | HostRecordMatch(db3, db3.users[uuid], victim)
      ensures code in OfflineUserAsWritten(db3, db3.users[uuid], Some(code), victim).parties
    {
      assert victim != Some(code);
    }
  }

  // ------------------------------------------------------------------ parties

  datatype CreateResult = HostUnknown | CodesExhausted | Created(secret: string, code: string)

  /**
   * `createParty`: an unknown host gets nothing; otherwise a party under the
   * first free drawn code, hosted by a copy of the host's record, with the
   * host as sole participant and a fresh party secret. The retry loop that
   * draws codes runs over the supplied draws and gives up when they are used up.
   */
  function CreateParty(db: Db, uuid: string, track: Option<Track>, candidates: seq<string>, newSecret: string): (r: (Db, CreateResult))
    requires Valid(db) && IsCanonicalUuid(newSecret) && AllPartyCodes(candidates)
    ensures Valid(r.0) && r.0.users == db.users
    ensures !r.1.Created? ==> r.0 == db
    ensures r.1.HostUnknown? <==> uuid !in db.users
    ensures r.1.CodesExhausted? <==> uuid in db.users && AllTaken(db.parties.Keys, candidates, |candidates|)
    ensures r.1.Created? ==>
      && r.1.secret == newSecret
      && IsPartyCode(r.1.code) && r.1.code !in db.parties
      && r.1.code == FirstFreeCode(db.parties.Keys, candidates).value
      && r.0.parties == db.parties[r.1.code := Party(r.1.code, db.users[uuid], newSecret, [uuid], track)]
  {
    if uuid !in db.users then (db, HostUnknown)
    else
      match FirstFreeCode(db.parties.Keys, candidates)
      case None => (db, CodesExhausted)
      case Some(code) =>
        FirstFreeCodeIsPartyCode(db.parties.Keys, candidates);
        var party := Party(code, db.users[uuid], newSecret, [uuid], track);
        (db.(parties := db.parties[code := party]), Created(party.requestSecret, party.id))
  }

  /** Two parties created one after the other never share a code. */
  lemma CreatedCodesDiffer(
    db: Db, host1: string, host2: string, track1: Option<Track>, track2: Option<Track>,
    candidates1: seq<string>, candidates2: seq<string>, newSecret1: string, newSecret2: string)
    requires Valid(db) && IsCanonicalUuid(newSecret1) && IsCanonicalUuid(newSecret2)
    requires AllPartyCodes(candidates1) && AllPartyCodes(candidates2)
    ensures
      var (db1, first) := CreateParty(db, host1, track1, candidates1, newSecret1);
      var (db2, second) := CreateParty(db1, host2, track2, candidates2, newSecret2);
      first.Created? && second.Created? ==>
        first.code != second.code && first.code in db2.parties && second.code in db2.parties
  {
  }

  /**
   * Unlike the older server, `createParty` does not refuse a host who
   * already hosts an open party: a second party is created beside the first.
   */
  lemma HostMayStartTwice(
    db: Db, uuid: string, track1: Option<Track>, track2: Option<Track>,
    candidates1: seq<string>, candidates2: seq<string>, newSecret1: string, newSecret2: string)
    requires Valid(db) && IsCanonicalUuid(newSecret1) && IsCanonicalUuid(newSecret2)
    requires AllPartyCodes(candidates1) && AllPartyCodes(candidates2) && uuid in db.users
    requires CreateParty(db, uuid, track1, candidates1, newSecret1).1.Created?
    requires FirstFreeCode(CreateParty(db, uuid, track1, candidates1, newSecret1).0.parties.Keys, candidates2).Some?
    ensures
      var (db1, first) := CreateParty(db, uuid, track1, candidates1, newSecret1);
      var (db2, second) := CreateParty(db1, uuid, track2, candidates2, newSecret2);
      && second.Created? && first.code != second.code
      && db2.parties[first.code].host.id == uuid && db2.parties[second.code].host.id == uuid
  {
  }

  /** The host presents the right party secret. */
  predicate HostWithSecret(party: Party, uuid: string, partySecret: Option<string>) {
    party.host.id == uuid && partySecret == Some(party.requestSecret)
  }

  /**
   * `leaveParty`: false, with nothing changed, for an unknown code or user.
   * The host with the matching party secret deletes the party; anyone else,
   * the host with a wrong secret included, loses one occurrence from the
   * participants. The result is true even when nothing changed.
   */
  function LeaveParty(db: Db, uuid: string, code: string, partySecret: Option<string>): (r: (Db, bool))
    requires Valid(db)
    ensures Valid(r.0) && r.0.users == db.users
    ensures r.1 <==> code in db.parties && uuid in db.users
    ensures !r.1 ==> r.0 == db
    ensures r.1 && HostWithSecret(db.parties[code], uuid, partySecret) ==>
      r.0.parties == db.parties - {code}
    ensures r.1 && !HostWithSecret(db.parties[code], uuid, partySecret) ==>
      r.0.parties == db.parties[code := Without(db.parties[code], uuid)]
  {
    if code !in db.parties || uuid !in db.users then (db, false)
    else
      var party := db.parties[code];
      var user := db.users[uuid];
      if party.host.id == user.id && Some(party.requestSecret) == partySecret then
        (db.(parties := db.parties - {code}), true)
      else if uuid in party.participants then
        (PutParty(db, Without(party, uuid)), true)
      else
        (db, true)
  }

  /**
   * A participant who is not the host leaves only themself: the party, its
   * host, secret and track remain, and exactly one of their occurrences is
   * gone from the participants, every other participant staying.
   */
  lemma ParticipantLeaveKeepsParty(db: Db, uuid: string, code: string, partySecret: Option<string>)
    requires Valid(db) && uuid in db.users && code in db.parties
    requires db.parties[code].host.id != uuid
    ensures var (after, ok) := LeaveParty(db, uuid, code, partySecret);
      var before := db.parties[code];
      && ok && code in after.parties
      && after.parties[code].host == before.host
      && after.parties[code].requestSecret == before.requestSecret
      && after.parties[code].currentTrack == before.currentTrack
      && multiset(after.parties[code].participants) == multiset(before.participants) - multiset{uuid}
      && (forall other :: other in after.parties && other != code ==> after.parties[other] == db.parties[other])
  {
    RemoveFirstCounts(db.parties[code].participants, uuid);
  }

  /**
   * The host presenting a wrong or no party secret is treated as an
   * ordinary participant: the party survives without its host among the
   * participants (when the host was listed once).
   */
  lemma HostWithWrongSecretLeavesHostlessParty(db: Db, uuid: string, code: string, partySecret: Option<string>)
    requires Valid(db) && uuid in db.users && code in db.parties
    requires db.parties[code].host.id == uuid && partySecret != Some(db.parties[code].requestSecret)
    requires multiset(db.parties[code].participants)[uuid] == 1
    ensures var (after, ok) := LeaveParty(db, uuid, code, partySecret);
      ok && code in after.parties && after.parties[code].host.id == uuid &&
      uuid !in after.parties[code].participants
  {
    RemoveFirstCounts(db.parties[code].participants, uuid);
    var rest := RemoveFirst(db.parties[code].participants, uuid);
    assert multiset(rest)[uuid] == 0;
  }

  /**
   * `joinParty`: None for an unknown code; otherwise the user is appended to
   * the participants (a second join lists them twice) and the updated party
   * is returned.
   */
  function JoinParty(db: Db, uuid: string, code: string): (r: (Db, Option<Party>))
    requires Valid(db)
    ensures Valid(r.0) && r.0.users == db.users && r.0.parties.Keys == db.parties.Keys
    ensures r.1.None? <==> code !in db.parties
    ensures r.1.None? ==> r.0 == db
    ensures r.1.Some? ==>
      && r.1.value == db.parties[code].(participants := db.parties[code].participants + [uuid])
      && r.0.parties == db.parties[code := r.1.value]
  {
    if code !in db.parties then (db, None)
    else
      var party := db.parties[code];
      var joined := party.(participants := party.participants + [uuid]);
      (db.(parties := db.parties[code := joined]), Some(joined))
  }

  /** Joining twice lists the user twice more: joins are not idempotent. */
  lemma JoinTwiceListsTwice(db: Db, uuid: string, code: string)
    requires Valid(db) && code in db.parties
    ensures var after := JoinParty(JoinParty(db, uuid, code).0, uuid, code).0;
      multiset(after.parties[code].participants)[uuid] == multiset(db.parties[code].participants)[uuid] + 2
  {
  }

  /**
   * The end-to-end run of a party: the host registers, starts a party with
   * a track, a guest registers and joins and is told the host, the status
   * shows the track, the host leaves with the party secret, and the code is
   * gone.
   */
  lemma PartyLifecycle(
    db: Db, host: string, guest: string, hostName: string, guestName: string, currentMod: string,
    hostSecret: string, guestSecret: string, partySecret: string,
    track: Option<Track>, candidates: seq<string>)
    requires Valid(db) && host !in db.users && guest !in db.users && host != guest
    requires IsCanonicalUuid(hostSecret) && IsCanonicalUuid(guestSecret) && IsCanonicalUuid(partySecret)
    requires AllPartyCodes(candidates) && FirstFreeCode(db.parties.Keys, candidates).Some?
    ensures
      var (db1, s1) := CreateUser(db, host, hostName, currentMod, hostSecret);
      var (db2, created) := CreateParty(db1, host, track, candidates, partySecret);
      var (db3, s2) := CreateUser(db2, guest, guestName, currentMod, guestSecret);
      var (db4, joined) := JoinParty(db3, guest, created.code);
      var (db5, left) := LeaveParty(db4, host, created.code, Some(created.secret));
      && s1 == Some(hostSecret) && s2 == Some(guestSecret)
      && created.Created? && |created.code| == CodeLength && |created.secret| == SecretLength
      && joined.Some? && joined.value.host.id == host && joined.value.currentTrack == track
      && joined.value.participants == [host, guest]
      && left && created.code !in db5.parties
  {
  }
}
