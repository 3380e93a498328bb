# MediaMod backend: store and route model

This project models the core of the MediaMod backend, a Kotlin server that
lets players of the MediaMod Minecraft mod register a session, publish the
song they are playing, and run "parties" in which guests follow a host's
track. Two trees of the server are modelled.

- **The newer server** (`org.mediamod.backend`). `MMDatabase` keeps two
  collections, `users` and `parties`. It is modelled twice. Module `Store`
  gives each operation as a function from the store before to the store
  after, and proves what the server promises about those functions.
  Module `Database` has the class `MMDatabase`. Its two maps are updated in
  place, and each method is proved to move the store exactly as its `Store`
  function says. The routes of `Party.kt`, `API.kt` and `Levelhead.kt` are
  methods over that class (`PartyRoutes`, `ApiRoutes`, `LevelheadRoutes`).
  Each takes the request fields as `Option<string>` and returns a `Response`
  (`Requests`). Its contract gives the response and the new store for every
  branch: a bad field size, an unknown user, a wrong session secret, and
  the successful store call.
- **The older server** (`dev.cbyrne.mediamod.backend`). `LegacyStore` holds
  its records and the `PartyManager` operations as functions. `LegacyMongo`
  has the `Database` class, with users and parties as maps. `LegacyParties`
  has the `PartyManager` class. `LegacyRoutes` has the decision logic of the
  `Main.kt` routes. This tree adds two rules that the newer one lacks. A
  player already listed in a party cannot start one. Only the host, showing
  the party secret, may change the song.

The server's randomness is passed in as arguments. A fresh session or
party secret is a `newSecret` argument, which is required to be a canonical
36-character UUID string. The random party-code draws are a `candidates`
sequence of 6-character alphanumeric codes. The code-generation retry walks
that sequence and reports exhaustion when every draw collides. A store
`findOne`/`findOneAndDelete` may pick any of several matching documents. The
methods choose one, and a ghost out-parameter reports which (`found`,
`stopped`). The Ashcon and Mojang HTTP answers are parameters of type
`Upstream` (`Failed` when the call throws, otherwise the possibly-null body).

Where the code and the behaviour described for the system disagree, the
model follows the code:
- The newer `createParty` does not refuse a host who already hosts or joined
  a party (`Store.HostMayStartTwice`). Only the older `startParty` refuses.
- `joinParty` appends, so a second join lists the user twice
  (`Store.JoinTwiceListsTwice`). It is not idempotent.
- `leaveParty` by the host with a wrong party secret is not a no-op. It
  removes the host from the participants and leaves the party without its
  host listed (`Store.HostWithWrongSecretLeavesHostlessParty`).
- Unknown users and unknown party codes answer BadRequest, not NotFound.
  A wrong party secret on `/api/party/update` also answers BadRequest, and a
  successful update sends no response at all.
- `/api/party/update` checks only the party secret. Any user who passes the
  session guard and knows that secret may change the track, not only the
  host.
- Code generation retries without a bound. Here it is bounded by the
  supplied draws, and running out is an InternalError.
- On logout, only one party listing the user is touched. In the source the
  hosted party is deleted by a match on the whole host record, which can
  miss it; see Findings. `Store.OfflineUserAsWritten` models that delete.
  `Database.MMDatabase.OfflineUser` and `ApiRoutes.Offline` use the
  corrected delete by code (`Store.OfflineUser`); see "## Left out".

## Model

| member | source | states |
|---|---|---|
| Ids.StripDashes | src/main/kotlin/dev/cbyrne/mediamod/backend/Main.kt:250 | `replace("-", "")` leaves no dash and never lengthens the string |
| Ids.StripDashesCounts | src/main/kotlin/dev/cbyrne/mediamod/backend/Main.kt:250 | stripping removes every dash and keeps every other character (multiset) |
| Ids.StripDashesOfDashless | src/main/kotlin/dev/cbyrne/mediamod/backend/Main.kt:298-305 | an undashed uuid is looked up unchanged |
| Ids.StripDashesAppend | src/main/kotlin/dev/cbyrne/mediamod/backend/Main.kt:250 | stripping distributes over concatenation |
| Ids.StripDashesIdempotent | src/main/kotlin/dev/cbyrne/mediamod/backend/Main.kt:250 | stripping twice is stripping once |
| Ids.CanonicalUuidStripsTo32 | src/main/kotlin/org/mediamod/backend/routing/api/API.kt:87 | a canonical dashed uuid strips to 32 characters, the form Mojang's id is compared with |
| Ids.CanonicalUuidStripsToHex | src/main/kotlin/org/mediamod/backend/routing/api/API.kt:133 | the stripped canonical uuid is all hex digits |
| Ids.FirstFreeCode | src/main/kotlin/org/mediamod/backend/database/MMDatabase.kt:208-216 | None exactly when every draw is taken; otherwise the draw at which the retry stops, which is untaken and preceded only by taken draws |
| Ids.FirstFreeCodeIsPartyCode | src/main/kotlin/org/mediamod/backend/database/MMDatabase.kt:209-210 | the chosen code is 6 characters over a-z, A-Z, 0-9 |
| Lists.RemoveFirst | src/main/kotlin/org/mediamod/backend/database/MMDatabase.kt:95 | `MutableList.remove`: unchanged when absent, one element shorter when present |
| Lists.RemoveFirstAt | src/main/kotlin/org/mediamod/backend/database/MMDatabase.kt:182 | removal drops exactly the first occurrence and keeps the order of the rest |
| Lists.RemoveFirstCounts | src/main/kotlin/org/mediamod/backend/database/MMDatabase.kt:182 | removal takes away one occurrence and nothing else (multiset) |
| Store.PutUser | src/main/kotlin/org/mediamod/backend/database/MMDatabase.kt:131 | `updateOneById` replaces the user with that id, ignores an unknown id, touches no one else |
| Store.PutParty | src/main/kotlin/org/mediamod/backend/database/MMDatabase.kt:139 | the same for parties |
| Store.CreateUser | src/main/kotlin/org/mediamod/backend/database/MMDatabase.kt:58-63 | a new user is online with mods [currentMod], no levelhead track, and the returned 36-character secret passes the guard; a taken id fails and changes nothing |
| Store.Login | src/main/kotlin/org/mediamod/backend/database/MMDatabase.kt:71-79 | unknown id: "" and no change; known: online with the new secret, which passes the guard, profile unchanged, others untouched |
| Store.LoginRevokesPreviousSecret | src/main/kotlin/org/mediamod/backend/database/MMDatabase.kt:74-78 | after a login the previous secret fails the guard |
| Store.SecondLoginRevokesFirst | src/main/kotlin/org/mediamod/backend/database/MMDatabase.kt:74-78 | after two logins only the second secret passes |
| Store.OfflineUser | src/main/kotlin/org/mediamod/backend/database/MMDatabase.kt:88-105 | corrected logout: the record written back is the given user with secret "", offline and no levelhead track, id, name and mods kept; no non-empty secret passes the guard; the found party is deleted if hosted, otherwise loses one occurrence of the user; others untouched |
| Store.OfflineUserAsWritten | src/main/kotlin/org/mediamod/backend/database/MMDatabase.kt:88-105 | logout as written: the hosted case deletes a party whose whole host record equals the user record |
| Store.OfflineAsWrittenKeepsHostedParty | src/main/kotlin/org/mediamod/backend/database/MMDatabase.kt:92-93 | register, start a party, log in again, log out: as written the party survives, corrected it is gone |
| Store.CreateParty | src/main/kotlin/org/mediamod/backend/database/MMDatabase.kt:160-167 | unknown host: nothing; else a party under the first free draw with the host's record, the fresh secret, participants [uuid] and the track |
| Store.CreatedCodesDiffer | src/main/kotlin/org/mediamod/backend/database/MMDatabase.kt:208-216 | two parties created in turn never share a code |
| Store.HostMayStartTwice | src/main/kotlin/org/mediamod/backend/database/MMDatabase.kt:160-167 | a host may create a second party beside the first |
| Store.LeaveParty | src/main/kotlin/org/mediamod/backend/database/MMDatabase.kt:175-187 | false and no change for an unknown code or user; the host with the party secret deletes it; anyone else loses one occurrence; true otherwise |
| Store.ParticipantLeaveKeepsParty | src/main/kotlin/org/mediamod/backend/database/MMDatabase.kt:181-184 | a non-host leaving keeps the party, host, secret and track, and removes exactly one occurrence |
| Store.HostWithWrongSecretLeavesHostlessParty | src/main/kotlin/org/mediamod/backend/database/MMDatabase.kt:179-184 | the host with a wrong secret is dropped from the participants and the party stays |
| Store.JoinParty | src/main/kotlin/org/mediamod/backend/database/MMDatabase.kt:194-201 | None and no change for an unknown code; otherwise the user is appended and the updated party returned |
| Store.JoinTwiceListsTwice | src/main/kotlin/org/mediamod/backend/database/MMDatabase.kt:197 | two joins add two occurrences |
| Store.PartyLifecycle | src/main/kotlin/org/mediamod/backend/database/MMDatabase.kt:58-201 | register host, start, register guest, join (host and track shown), host leaves with the secret: the code is gone |
| Database.MMDatabase.constructor | src/main/kotlin/org/mediamod/backend/database/MMDatabase.kt:21-47 | the model starts from an empty store |
| Database.MMDatabase.GetUser | src/main/kotlin/org/mediamod/backend/database/MMDatabase.kt:123 | the user stored under that id, if any |
| Database.MMDatabase.GetParty | src/main/kotlin/org/mediamod/backend/database/MMDatabase.kt:203 | the party stored under that code, if any |
| Database.MMDatabase.UpdateUser | src/main/kotlin/org/mediamod/backend/database/MMDatabase.kt:131 | moves the store as Store.PutUser |
| Database.MMDatabase.UpdateParty | src/main/kotlin/org/mediamod/backend/database/MMDatabase.kt:139 | moves the store as Store.PutParty |
| Database.MMDatabase.CreateUser | src/main/kotlin/org/mediamod/backend/database/MMDatabase.kt:58-63 | moves the store and returns as Store.CreateUser |
| Database.MMDatabase.LoginUser | src/main/kotlin/org/mediamod/backend/database/MMDatabase.kt:71-79 | moves the store and returns as Store.Login |
| Database.MMDatabase.OfflineUser | src/main/kotlin/org/mediamod/backend/database/MMDatabase.kt:88-105 | the party it finds lists the user, or none does; the store moves as the corrected Store.OfflineUser (the found party is deleted by its code) |
| Database.MMDatabase.GeneratePartyCode | src/main/kotlin/org/mediamod/backend/database/MMDatabase.kt:208-216 | the retry loop returns Ids.FirstFreeCode: an untaken 6-character code, or None when every draw is taken |
| Database.MMDatabase.CreateParty | src/main/kotlin/org/mediamod/backend/database/MMDatabase.kt:160-167 | moves the store and returns as Store.CreateParty |
| Database.MMDatabase.LeaveParty | src/main/kotlin/org/mediamod/backend/database/MMDatabase.kt:175-187 | moves the store and returns as Store.LeaveParty |
| Database.MMDatabase.JoinParty | src/main/kotlin/org/mediamod/backend/database/MMDatabase.kt:194-201 | moves the store and returns as Store.JoinParty |
| PartyRoutes.Start | src/main/kotlin/org/mediamod/backend/routing/api/Party.kt:67-110 | bad uuid/secret size, unknown user or wrong secret: BadRequest, no change; else Store.CreateParty, answered with secret and code, or InternalError when the draws run out |
| PartyRoutes.Leave | src/main/kotlin/org/mediamod/backend/routing/api/Party.kt:112-161 | size and guard failures: BadRequest, no change; else Store.LeaveParty, OK exactly when it returns true |
| PartyRoutes.Status | src/main/kotlin/org/mediamod/backend/routing/api/Party.kt:163-212 | read-only; the party's current track, or BadRequest for bad sizes, a failed guard or an unknown code |
| PartyRoutes.Update | src/main/kotlin/org/mediamod/backend/routing/api/Party.kt:214-270 | with a 36-character matching party secret only that party's current track is replaced and no response is sent; otherwise BadRequest and no change |
| PartyRoutes.Join | src/main/kotlin/org/mediamod/backend/routing/api/Party.kt:272-320 | size and guard failures: BadRequest, no change; else Store.JoinParty, OK with the party or BadRequest for an unknown code |
| ApiRoutes.Register | src/main/kotlin/org/mediamod/backend/routing/api/API.kt:48-142 | field checks first; known player: Mojang error InternalError, mismatch BadRequest, match Store.Login; new player: Ashcon error, null body, name or uuid InternalError, Mojang error InternalError, mismatch BadRequest, match Store.CreateUser; every failure leaves the store unchanged |
| ApiRoutes.Offline | src/main/kotlin/org/mediamod/backend/routing/api/API.kt:144-182 | size and guard failures: BadRequest, no change; else OK, the store moves as the corrected Store.OfflineUser and the presented secret stops passing the guard |
| LevelheadRoutes.SongInformation | src/main/kotlin/org/mediamod/backend/routing/api/Levelhead.kt:24-52 | read-only; bad uuid BadRequest; shared secret not the configured 96 characters NotFound; else the published song, or BadRequest |
| LevelheadRoutes.Update | src/main/kotlin/org/mediamod/backend/routing/api/Levelhead.kt:54-92 | size and guard failures: BadRequest, no change; else OK and only the caller's levelhead track is replaced |
| LegacyStore.FindMod | src/main/kotlin/dev/cbyrne/mediamod/backend/Main.kt:291 | the mod whose id is the given string, None when no mod has it |
| LegacyStore.InsertUser | src/main/kotlin/dev/cbyrne/mediamod/backend/mongo/Database.kt:15-17 | adds a record under a new id; an existing id is left as it was |
| LegacyStore.PutUser | src/main/kotlin/dev/cbyrne/mediamod/backend/mongo/Database.kt:19-21 | `updateOneById` on users |
| LegacyStore.PutParty | src/main/kotlin/dev/cbyrne/mediamod/backend/party/PartyManager.kt:33-35 | `updateOneById` on parties |
| LegacyStore.StartParty | src/main/kotlin/dev/cbyrne/mediamod/backend/party/PartyManager.kt:12-23 | refused with no change exactly when the host is listed in some party; else a party under the first free draw with the host, the fresh secret, participants [host id] and track "" |
| LegacyStore.StopParty | src/main/kotlin/dev/cbyrne/mediamod/backend/party/PartyManager.kt:25-27 | deletes the one chosen party listing the id; no change when none does |
| LegacyStore.GoOffline | src/main/kotlin/dev/cbyrne/mediamod/backend/Main.kt:264-268 | the player is marked offline, others untouched, then one party listing the player is deleted |
| LegacyStore.JoinParty | src/main/kotlin/dev/cbyrne/mediamod/backend/party/PartyManager.kt:29-38 | false and no change for an unknown code; otherwise the user is appended |
| LegacyStore.StartedHostIsRefused | src/main/kotlin/dev/cbyrne/mediamod/backend/party/PartyManager.kt:13-14 | a host whose party started cannot start another |
| LegacyStore.JoinedUserIsRefused | src/main/kotlin/dev/cbyrne/mediamod/backend/party/PartyManager.kt:13-14 | a player who joined a party cannot start one |
| LegacyStore.GuestStopEndsHostsParty | src/main/kotlin/dev/cbyrne/mediamod/backend/party/PartyManager.kt:25-27 | stopping on behalf of a guest deletes the host's party the guest joined |
| LegacyMongo.Database.constructor | src/main/kotlin/dev/cbyrne/mediamod/backend/mongo/Database.kt:6-8 | the model starts from an empty store |
| LegacyMongo.Database.GetUser | src/main/kotlin/dev/cbyrne/mediamod/backend/mongo/Database.kt:13 | the record stored under that id, if any |
| LegacyMongo.Database.FindParty | src/main/kotlin/dev/cbyrne/mediamod/backend/party/PartyManager.kt:30 | the party stored under that code, if any |
| LegacyMongo.Database.InsertUser | src/main/kotlin/dev/cbyrne/mediamod/backend/mongo/Database.kt:15-17 | moves the store as LegacyStore.InsertUser |
| LegacyMongo.Database.UpdateUser | src/main/kotlin/dev/cbyrne/mediamod/backend/mongo/Database.kt:19-21 | moves the store as LegacyStore.PutUser |
| LegacyMongo.Database.UpdateParty | src/main/kotlin/dev/cbyrne/mediamod/backend/Main.kt:194 | moves the store as LegacyStore.PutParty |
| LegacyParties.PartyManager.constructor | src/main/kotlin/dev/cbyrne/mediamod/backend/Main.kt:66-67 | the manager works on the given database |
| LegacyParties.PartyManager.StartParty | src/main/kotlin/dev/cbyrne/mediamod/backend/party/PartyManager.kt:12-23 | moves the store and returns as LegacyStore.StartParty |
| LegacyParties.PartyManager.StopParty | src/main/kotlin/dev/cbyrne/mediamod/backend/party/PartyManager.kt:25-27 | the deleted party lists the id, or none does; the store moves as LegacyStore.StopParty |
| LegacyParties.PartyManager.JoinParty | src/main/kotlin/dev/cbyrne/mediamod/backend/party/PartyManager.kt:29-38 | moves the store as LegacyStore.JoinParty; OK exactly for a known code, else BadRequest |
| LegacyParties.PartyManager.GenerateCode | src/main/kotlin/dev/cbyrne/mediamod/backend/party/PartyManager.kt:40-48 | the retry loop returns Ids.FirstFreeCode: an untaken 6-character code, or None when every draw is taken |
| LegacyRoutes.StartParty | src/main/kotlin/dev/cbyrne/mediamod/backend/Main.kt:102-138 | uuid not 32 characters or unknown: BadRequest, no change; else LegacyStore.StartParty, a refusal BadRequest, a start the code and secret |
| LegacyRoutes.JoinParty | src/main/kotlin/dev/cbyrne/mediamod/backend/Main.kt:140-161 | uuid not 32 or code not 6 characters (counted as Unicode characters, not UTF-16 units): BadRequest, no change; else LegacyStore.JoinParty with its status |
| LegacyRoutes.SongChange | src/main/kotlin/dev/cbyrne/mediamod/backend/Main.kt:163-206 | missing or mis-sized fields or unknown code: BadRequest, no change; host with the party secret: OK and only the track changes; anyone else: Forbidden, no change |
| LegacyRoutes.LeaveParty | src/main/kotlin/dev/cbyrne/mediamod/backend/Main.kt:208-235 | OK exactly when the uuid has 32 characters (counted as Unicode characters, not UTF-16 units), else BadRequest; there is no store to change |
| LegacyRoutes.BothUuidFormsReachSameRecord | src/main/kotlin/dev/cbyrne/mediamod/backend/Main.kt:250-257 | a canonical uuid and its undashed form both pass the check and strip to the same id |
| LegacyRoutes.Offline | src/main/kotlin/dev/cbyrne/mediamod/backend/Main.kt:237-273 | no secret checked; uuid not 32 characters once stripped, or unknown: BadRequest, no change; else "Success" and the store moves as LegacyStore.GoOffline |
| LegacyRoutes.Register | src/main/kotlin/dev/cbyrne/mediamod/backend/Main.kt:275-351 | missing fields, unknown mod or version, or a stripped uuid not 32 characters: BadRequest; known player: the mod is added if missing; new player: Ashcon failure NotFound, missing name or uuid or another id BadRequest, else inserted online with [mod] |

## Left out

- Spotify token proxying (`Spotify.kt`, `SpotifyHandler.kt`, `Backend.kt` and the `/api/spotify/*` routes of `Main.kt`). These routes forward to Spotify's token endpoint, and their guard checks repeat the Party.kt pattern.
- The Ashcon and Mojang HTTP calls. Only their outcomes are modelled, as `Upstream` parameters.
- Server bootstrap, configuration loading, `/`, `/clientID` and the build script. The configured Levelhead secret is a parameter of `LevelheadRoutes.SongInformation`.
- `/stats`, `doesUserExist`, and the user counts of both trees. These only count records.
- JSON parsing. A missing or null request body is treated like a body whose fields are all null: every route answers it with BadRequest, the same as a missing field. Parsing the levelhead `track` string becomes an `Option<LevelheadTrack>` argument.
- `UUID.fromString` and `UUID.toString`. The model treats the 36-character uuid as already canonical. The exception that `fromString` throws for a malformed 36-character string is not modelled, and neither is its case normalisation.
- Database.MMDatabase.OfflineUser: deletes the hosted party it found by its code, the corrected behaviour. The source's `findOneAndDelete(Party::host eq user)` can miss that party (see Findings); that delete is modelled only by `Store.OfflineUserAsWritten`.
- ApiRoutes.Offline: moves the store as the corrected `Store.OfflineUser`, for the same reason. As written, a host who logged in again after starting a party keeps the party after `/api/offline` (`Store.OfflineAsWrittenKeepsHostedParty`).
- Every length check of both servers (uuid 32 or 36, secret 36, code 6, Levelhead secret 96): Kotlin's `String.length` counts UTF-16 code units, while the model counts Unicode characters. A field holding a character outside the Basic Multilingual Plane is one shorter here than in the source, so for such inputs a route can answer BadRequest where the source goes on, or the reverse.
- Concurrency. The `async`, `launch` and `GlobalScope.launch` writes happen in sequence before the response. Races and response-before-write ordering are not modelled. Mongo write acknowledgement is not modelled either.
- Database.MMDatabase.GeneratePartyCode: the unbounded recursive retry is modelled as a walk over the supplied draws. When the draws run out the result is None, and `/api/party/start` answers InternalError.
- LegacyParties.PartyManager.GenerateCode: the same, and `/startParty` answers InternalError when the draws run out.
- LegacyRoutes.Register: for a known player whose mods already contain the current mod, the version-list update and the online update are not modelled. The model leaves that record unchanged. `ModUser` has no `versions` field, and `Version` is not part of this model.
- LegacyRoutes.Register: the new record is inserted with `online = true`. The source passes a version array in that position, which does not match `ModUser`.
- LegacyRoutes.Offline: the secret that `Main.kt` passes to `stopParty` is ignored. `stopParty` takes only the id.
- `MediaModParty` is modelled with the five fields its constructor call supplies: id, host, secret, participants and track. Its declaration has three. `Database.partiesCollection` is modelled as the `parties` map of `LegacyMongo.Database`.

## Findings

| source | as written | input that shows it | evidently intended | confidence | as-written member | corrected member |
|---|---|---|---|---|---|---|
| src/main/kotlin/org/mediamod/backend/database/MMDatabase.kt:92-93 | when the found party's host id is the user's, it deletes a party whose whole embedded host record equals the user record (`Party::host eq user`) | a user registers, starts a party, registers again (a new secret) and goes offline: the party's copy of the host still holds the first secret, so no party matches and the party outlives its host's logout | delete the party that was found (by its code) | not executed; the record comparison is a Mongo embedded-document equality | Store.OfflineUserAsWritten, Store.OfflineAsWrittenKeepsHostedParty | Store.OfflineUser |
