/** The records the newer server keeps in its `users` and `parties` collections. */
module Schema {
  import opened Wrappers

  /** A track as a party carries it: the model never looks inside. */
  datatype Track = Track(json: string)

  /** The name and artist the Levelhead integration reads back. */
  datatype LevelheadTrack = LevelheadTrack(name: Option<string>, artist: Option<string>)

  datatype User = User(
    id: string,
    username: string,
    requestSecret: string,
    mods: seq<string>,
    online: bool,
    levelheadTrack: Option<LevelheadTrack>)

  /** A party stores a copy of its host's user record, taken when the party was created. */
  datatype Party = Party(
    id: string,
    host: User,
    requestSecret: string,
    participants: seq<string>,
    currentTrack: Option<Track>)
}
