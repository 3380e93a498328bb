/**
 * The older server (the dev.cbyrne tree) as values: its user and party
 * records, the two Mongo collections as maps, and each PartyManager
 * operation as a function from the store before to the store after. The
 * classes in legacy_mongo.dfy and legacy_parties.dfy perform these
 * operations in place and are proved against these functions.
 */
module LegacyStore {
  import opened Wrappers
  import opened Ids

  /** The mods a player can register with. */
  datatype Mod = MediaMod | Unknown

  function ModId(m: Mod): string {
    match m
    case MediaMod => "mediamod"
    case Unknown => "unknown"
  }

  /** `Mod.values().find { it.modid == id }`: the mod with that id, if any. */
  function FindMod(id: string): (r: Option<Mod>)
    ensures r.Some? ==> ModId(r.value) == id
    ensures r.None? ==> forall m: Mod :: ModId(m) != id
  {
    if id == ModId(MediaMod) then Some(MediaMod)
    else if id == ModId(Unknown) then Some(Unknown)
    else None
  }

  /** A player record, keyed by the undashed uuid. */
  datatype ModUser = ModUser(id: string, username: string, mods: seq<Mod>, online: bool)

  /**
   * A party: its code, a copy of the host's record, the party secret, the
   * ids of everyone in it (the host first), and the current track id.
   */
  datatype MediaModParty = MediaModParty(
    id: string, host: ModUser, requestSecret: string, participants: seq<string>, track: string)

  datatype Db = Db(users: map<string, ModUser>, parties: map<string, MediaModParty>)

  /** Every document sits under its own `_id`; every party sits under a well-formed code. */
  predicate Valid(db: Db) {
    (forall id :: id in db.users ==> db.users[id].id == id) &&
    (forall code :: code in db.parties ==> db.parties[code].id == code && IsPartyCode(code))
  }

  /** Some party lists `id` among its participants. */
  predicate InSomeParty(db: Db, id: string) {
    exists code :: code in db.parties && id in db.parties[code].participants
  }

  /**
   * `insertUser`: a new record. A second insert of the same id fails on the
   * unique `_id` index (an exception inside the launched write, so the
   * caller sees nothing); the store is left as it was.
   */
  function InsertUser(db: Db, user: ModUser): (r: Db)
    requires Valid(db)
    ensures Valid(r) && r.parties == db.parties
    ensures user.id in db.users ==> r == db
    ensures user.id !in db.users ==> r.users == db.users[user.id := user]
  {
    if user.id in db.users then db else db.(users := db.users[user.id := user])
  }

  /** `updateUser`: `updateOneById`, which replaces the record with that id and ignores an unknown one. */
  function PutUser(db: Db, user: ModUser): (r: Db)
    requires Valid(db)
    ensures Valid(r) && r.parties == db.parties && r.users.Keys == db.users.Keys
    ensures user.id in db.users ==> r.users[user.id] == user
    ensures forall id :: id in db.users && id != user.id ==> r.users[id] == db.users[id]
  {
    if user.id in db.users then db.(users := db.users[user.id := user]) else db
  }

  /** `partiesCollection.updateOneById`, the same for parties. */
  function PutParty(db: Db, party: MediaModParty): (r: Db)
    requires Valid(db)
    ensures Valid(r) && r.users == db.users && r.parties.Keys == db.parties.Keys
    ensures party.id in db.parties ==> r.parties[party.id] == party
    ensures forall code :: code in db.parties && code != party.id ==> r.parties[code] == db.parties[code]
  {
    if party.id in db.parties then db.(parties := db.parties[party.id := party]) else db
  }

  datatype StartOutcome = AlreadyParticipating | CodesExhausted | Started(party: MediaModParty)

  /**
   * `startParty`: refused, with nothing inserted, when the host already
   * takes part in some party; otherwise a party under the first free drawn
   * code, with the fresh secret, the host as sole participant and an empty
   * track. The retry loop runs over the supplied draws and gives up when
   * they are used up.
   */
  function StartParty(db: Db, host: ModUser, candidates: seq<string>, newSecret: string): (r: (Db, StartOutcome))
    requires Valid(db) && AllPartyCodes(candidates)
    ensures Valid(r.0) && r.0.users == db.users
    ensures !r.1.Started? ==> r.0 == db
    ensures r.1.AlreadyParticipating? <==> InSomeParty(db, host.id)
    ensures r.1.CodesExhausted? <==> !InSomeParty(db, host.id) && AllTaken(db.parties.Keys, candidates, |candidates|)
    ensures r.1.Started? ==>
      var party := r.1.party;
      && IsPartyCode(party.id) && party.id !in db.parties
      && party.id == FirstFreeCode(db.parties.Keys, candidates).value
      && party == MediaModParty(party.id, host, newSecret, [host.id], "")
      && r.0.parties == db.parties[party.id := party]
  {
    if InSomeParty(db, host.id) then (db, AlreadyParticipating)
    else
      match FirstFreeCode(db.parties.Keys, candidates)
      case None => (db, CodesExhausted)
      case Some(code) =>
        FirstFreeCodeIsPartyCode(db.parties.Keys, candidates);
        var party := MediaModParty(code, host, newSecret, [host.id], "");
        (db.(parties := db.parties[code := party]), Started(party))
  }

  /**
   * What `findOneAndDelete(participants contains id)` may delete: some
   * party listing `id`, or nothing when no party does.
   */
  predicate StoppedBy(db: Db, id: string, stopped: Option<string>) {
    match stopped
    case None => !InSomeParty(db, id)
    case Some(code) => code in db.parties && id in db.parties[code].participants
  }

  /** `stopParty`: one party listing `id` is deleted, whether or not `id` hosts it. */
  function StopParty(db: Db, id: string, stopped: Option<string>): (r: Db)
    requires Valid(db) && StoppedBy(db, id, stopped)
    ensures Valid(r) && r.users == db.users
    ensures stopped.None? ==> r == db
    ensures stopped.Some? ==> r.parties == db.parties - {stopped.value} && |r.parties| == |db.parties| - 1
  {
    match stopped
    case None => db
    case Some(code) => db.(parties := db.parties - {code})
  }

  /**
   * The `/offline` route's two writes in order: the player's record is
   * marked offline, then one party listing the player is stopped.
   */
  function GoOffline(db: Db, id: string, stopped: Option<string>): (r: Db)
    requires Valid(db) && id in db.users && StoppedBy(db, id, stopped)
    ensures Valid(r) && r.users.Keys == db.users.Keys
    ensures !r.users[id].online && r.users[id] == db.users[id].(online := false)
    ensures forall other :: other in db.users && other != id ==> r.users[other] == db.users[other]
    ensures r.parties == (if stopped.Some? then db.parties - {stopped.value} else db.parties)
  {
    StopParty(PutUser(db, db.users[id].(online := false)), id, stopped)
  }

  /** `joinParty`: false for an unknown code; otherwise `user` is appended, duplicates and all. */
  function JoinParty(db: Db, code: string, user: string): (r: (Db, bool))
    requires Valid(db)
    ensures Valid(r.0) && r.0.users == db.users
    ensures r.1 <==> code in db.parties
    ensures !r.1 ==> r.0 == db
    ensures r.1 ==>
      var party := db.parties[code];
      r.0.parties == db.parties[code := party.(participants := party.participants + [user])]
  {
    if code !in db.parties then (db, false)
    else
      var party := db.parties[code];
      (PutParty(db, party.(participants := party.participants + [user])), true)
  }

  /** Only the host, presenting the party's secret, may change its song. */
  predicate MayChangeSong(party: MediaModParty, uuid: string, secret: string) {
    party.host.id == uuid && party.requestSecret == secret
  }

  // ------------------------------------------------------------ properties

  /** A host whose party started cannot start a second one. */
  lemma StartedHostIsRefused(
    db: Db, host: ModUser, candidates: seq<string>, newSecret: string,
    again: seq<string>, secondSecret: string)
    requires Valid(db) && AllPartyCodes(candidates) && AllPartyCodes(again)
    requires StartParty(db, host, candidates, newSecret).1.Started?
    ensures
      var db1 := StartParty(db, host, candidates, newSecret).0;
      StartParty(db1, host, again, secondSecret).1 == AlreadyParticipating
  {
  }

  /** Anyone who joined a party cannot start one of their own. */
  lemma JoinedUserIsRefused(
    db: Db, code: string, user: ModUser, candidates: seq<string>, newSecret: string)
    requires Valid(db) && AllPartyCodes(candidates) && code in db.parties
    ensures
      var db1 := JoinParty(db, code, user.id).0;
      StartParty(db1, user, candidates, newSecret).1 == AlreadyParticipating
  {
  }

  /**
   * Stopping is keyed on participation, not hosting: when the only party
   * a guest joined is stopped on the guest's behalf, the host's party is gone.
   */
  lemma GuestStopEndsHostsParty(
    db: Db, host: ModUser, guest: string, candidates: seq<string>, newSecret: string)
    requires Valid(db) && AllPartyCodes(candidates) && !InSomeParty(db, guest)
    requires guest != host.id
    requires StartParty(db, host, candidates, newSecret).1.Started?
    ensures
      var (db1, outcome) := StartParty(db, host, candidates, newSecret);
      var db2 := JoinParty(db1, outcome.party.id, guest).0;
      forall stopped :: StoppedBy(db2, guest, stopped) ==>
        stopped == Some(outcome.party.id) && outcome.party.id !in StopParty(db2, guest, stopped).parties
  {
  }
}
