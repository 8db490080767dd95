/**
  The records of the map submission workflow: a map's lifecycle status, the
  creation request, the stored map record with its info, tracks and credits,
  the HTTP exceptions the service raises, and the repository of map records
  seen as a value.
*/
module MapModel {

  datatype Option<+T> = None | Some(value: T)

  /** Lifecycle state of a map (the `statusFlag` column). */
  datatype Status = NeedsRevision | Pending | Approved | Rejected | Removed

  /**
    A map holds its name for the name-uniqueness rule unless it was rejected
    or removed. The filter in server/src/modules/maps/maps.service.ts:121-129
    that is meant to express this rule has a suspicious shape; this predicate
    is the intended rule, and MapsProperties records what the literal shape
    does.
  */
  predicate IsLive(s: Status) {
    s != Rejected && s != Removed
  }

  /** The one-to-one info block of a map. Dates are kept as numbers. */
  datatype MapInfo = MapInfo(description: string, numTracks: nat, creationDate: nat, youtubeID: string)

  /** A track as it arrives in a creation request, and as it is stored. */
  datatype TrackDto = TrackDto(isLinear: bool, numZones: nat, trackNum: nat, difficulty: nat)
  datatype Track = Track(isLinear: bool, numZones: nat, trackNum: nat, difficulty: nat)

  /** A credit as it arrives in a creation request, and as it is stored with its timestamps. */
  datatype CreditDto = CreditDto(creditType: nat, userID: nat)
  datatype Credit = Credit(creditType: nat, userID: nat, createdAt: nat, updatedAt: nat)

  /** The body of a creation request. The map type is an enumeration code. */
  datatype CreateMapDto = CreateMapDto(
    name: string,
    mapType: nat,
    info: MapInfo,
    tracks: seq<TrackDto>,
    credits: seq<CreditDto>)

  /** A stored map. `downloadURL` and `hash` stay unset until a file is uploaded. */
  datatype MapRecord = MapRecord(
    id: nat,
    name: string,
    mapType: nat,
    status: Status,
    submitterID: nat,
    downloadURL: Option<string>,
    hash: Option<string>,
    info: MapInfo,
    tracks: seq<Track>,
    credits: seq<Credit>)

  /** What the artifact store answers for one stored file. */
  datatype StoredFile = StoredFile(downloadURL: string, hash: string)

  /** An HTTP exception: a message and a status code. */
  datatype HttpException = HttpException(message: string, status: nat)

  const MapNotFound := HttpException("Map not found", 404)
  const WrongState := HttpException("Map file cannot be uploaded given the map state", 409)
  const NameUsed := HttpException("Map name already used", 409)
  const LimitReached := HttpException("Map creation limit reached", 409)

  /** How many PENDING maps a submitter may have before creation is refused. */
  const MapUploadLimit: nat := 5

  datatype Result<+T> = Ok(value: T) | Err(error: HttpException)

  /** The outcome of a guard: it passes, or it rejects with an exception. */
  datatype Outcome = Pass | Fail(error: HttpException)

  /**
    The map repository as a value: the records by id, the next id the
    auto-increment column hands out, and the schema's default status that a
    new record receives.
  */
  datatype Repo = Repo(maps: map<nat, MapRecord>, nextId: nat, defaultStatus: Status)

  /** The first id the auto-increment column hands out. */
  const FirstId: nat := 1

  /**
    Consistency of the repository: ids are handed out from FirstId upwards,
    every record carries its own key as id, and a record's download URL and
    hash are either both set or both unset.
  */
  ghost predicate ValidRepo(repo: Repo) {
    && FirstId <= repo.nextId
    && forall id :: id in repo.maps ==>
         && FirstId <= id < repo.nextId
         && repo.maps[id].id == id
         && (repo.maps[id].downloadURL.Some? <==> repo.maps[id].hash.Some?)
  }

  /** The empty repository. */
  function EmptyRepo(defaultStatus: Status): (repo: Repo)
    ensures ValidRepo(repo) && repo.maps == map[] && repo.defaultStatus == defaultStatus
  {
    Repo(map[], FirstId, defaultStatus)
  }
}
