/**
  The map submission workflow of `MapsService`: the name and quota guards,
  the storage key of a map file, the record built for a creation request,
  the effect of Insert and Upload on the repository as functions, and the
  service class whose methods carry out those effects in place.

  The submitter, which the service reads from the logged-in session, and the
  clock, which stamps credits, are explicit parameters.
*/
module Maps {
  import opened MapModel
  import opened MapQueries
  import opened FileStoreCloud

  /** The filter of the name guard: same name, live status. */
  function NameFilter(name: string): MapFilter {
    MapFilter(Some(name), None, s => IsLive(s))
  }

  /** The filter of the quota guard: same submitter, PENDING status. */
  function QuotaFilter(submitterID: nat): MapFilter {
    MapFilter(None, Some(submitterID), s => s == Pending)
  }

  /** How many of a submitter's maps are PENDING. */
  function PendingCount(maps: map<nat, MapRecord>, submitterID: nat): nat {
    Count(maps, QuotaFilter(submitterID))
  }

  /**
    The name guard: rejects with "Map name already used" (409) exactly when
    a stored map with that name is live. It only reads the repository.
  */
  function VerifyMapNameNotTaken(maps: map<nat, MapRecord>, name: string): (o: Outcome)
    ensures o.Fail? <==> exists id :: id in maps && maps[id].name == name && IsLive(maps[id].status)
    ensures o.Fail? ==> o.error == NameUsed
  {
    CountPositiveIff(maps, NameFilter(name));
    if Count(maps, NameFilter(name)) > 0 then Fail(NameUsed) else Pass
  }

  /**
    The name filter exactly as written in the source: `NOT` wrapping the
    conjunction of `statusFlag: REJECTED` and a one-element `OR` on
    `statusFlag: REMOVED`. No status is both, so the test lets every status
    through.
  */
  function LiteralNameFilter(name: string): MapFilter {
    MapFilter(Some(name), None, s => !(s == Rejected && s == Removed))
  }

  /**
    The name guard as written: it rejects whenever any stored map has the
    name, whatever its status.
  */
  function VerifyMapNameNotTakenAsWritten(maps: map<nat, MapRecord>, name: string): (o: Outcome)
    ensures o.Fail? <==> exists id :: id in maps && maps[id].name == name
    ensures o.Fail? ==> o.error == NameUsed
  {
    CountPositiveIff(maps, LiteralNameFilter(name));
    if Count(maps, LiteralNameFilter(name)) > 0 then Fail(NameUsed) else Pass
  }

  /**
    The quota guard: rejects with "Map creation limit reached" (409) exactly
    when the submitter already has MapUploadLimit or more PENDING maps.
  */
  function VerifyMapUploadLimitNotReached(maps: map<nat, MapRecord>, submitterID: nat): (o: Outcome)
    ensures o.Fail? <==> PendingCount(maps, submitterID) >= MapUploadLimit
    ensures o.Fail? ==> o.error == LimitReached
    ensures PendingCount(maps, submitterID) == MapUploadLimit - 1 ==> o == Pass
  {
    if PendingCount(maps, submitterID) >= MapUploadLimit then Fail(LimitReached) else Pass
  }

  /**
    Both guards of Insert in their order: the name guard runs first and the
    quota guard is consulted only when the name is free.
  */
  function InsertGuards(maps: map<nat, MapRecord>, submitterID: nat, name: string): (o: Outcome)
    ensures o.Fail? <==>
      (exists id :: id in maps && maps[id].name == name && IsLive(maps[id].status))
      || PendingCount(maps, submitterID) >= MapUploadLimit
    ensures VerifyMapNameNotTaken(maps, name).Fail? ==> o == Fail(NameUsed)
    ensures VerifyMapNameNotTaken(maps, name).Pass? && o.Fail? ==> o == Fail(LimitReached)
  {
    var nameCheck := VerifyMapNameNotTaken(maps, name);
    if nameCheck.Fail? then nameCheck else VerifyMapUploadLimitNotReached(maps, submitterID)
  }

  /**
    The key a map file is stored under: `maps/<name>.bsp`. It depends on the
    map's name only, so two maps that share a name share a key.
  */
  function StorageKey(name: string): (key: string)
    ensures |key| == |name| + 9
    ensures key[..5] == "maps/" && key[|key| - 4..] == ".bsp"
    ensures key[5..|key| - 4] == name
  {
    "maps/" + name + ".bsp"
  }

  /**
    The map name a storage key was built from: present exactly when the key
    is the storage key of some name, and then that name.
  */
  function NameOfStorageKey(key: string): (name: Option<string>)
    ensures name.Some? ==> key == StorageKey(name.value)
    ensures name.None? ==> forall n :: key != StorageKey(n)
  {
    if |key| >= 9 && key[..5] == "maps/" && key[|key| - 4..] == ".bsp"
    then Some(key[5..|key| - 4])
    else None
  }

  /** Stored tracks agree with requested tracks: same length, same order, same fields. */
  ghost predicate SameTracks(ts: seq<Track>, ds: seq<TrackDto>) {
    && |ts| == |ds|
    && forall i :: 0 <= i < |ts| ==>
         && ts[i].isLinear == ds[i].isLinear
         && ts[i].numZones == ds[i].numZones
         && ts[i].trackNum == ds[i].trackNum
         && ts[i].difficulty == ds[i].difficulty
  }

  /** Stored credits agree with requested credits, each stamped with `now`. */
  ghost predicate SameCredits(cs: seq<Credit>, ds: seq<CreditDto>, now: nat) {
    && |cs| == |ds|
    && forall i :: 0 <= i < |cs| ==>
         && cs[i].creditType == ds[i].creditType
         && cs[i].userID == ds[i].userID
         && cs[i].createdAt == now
         && cs[i].updatedAt == now
  }

  function ToTrack(d: TrackDto): Track {
    Track(d.isLinear, d.numZones, d.trackNum, d.difficulty)
  }

  /** The track projection of a creation request. */
  function ToTracks(ds: seq<TrackDto>): (ts: seq<Track>)
    ensures SameTracks(ts, ds)
  {
    seq(|ds|, i requires 0 <= i < |ds| => ToTrack(ds[i]))
  }

  function ToCredit(d: CreditDto, now: nat): Credit {
    Credit(d.creditType, d.userID, now, now)
  }

  /** The credit projection of a creation request, stamped with `now`. */
  function ToCredits(ds: seq<CreditDto>, now: nat): (cs: seq<Credit>)
    ensures SameCredits(cs, ds, now)
  {
    seq(|ds|, i requires 0 <= i < |ds| => ToCredit(ds[i], now))
  }

  /**
    The record Insert creates: the given id and submitter, the request's
    name, type, info, tracks and credits, the repository's default status,
    and no file yet.
  */
  function NewRecord(id: nat, submitterID: nat, dto: CreateMapDto, now: nat, defaultStatus: Status): (m: MapRecord)
    ensures m.id == id && m.submitterID == submitterID
    ensures m.name == dto.name && m.mapType == dto.mapType && m.info == dto.info
    ensures m.status == defaultStatus
    ensures m.downloadURL.None? && m.hash.None?
    ensures SameTracks(m.tracks, dto.tracks) && SameCredits(m.credits, dto.credits, now)
  {
    MapRecord(id, dto.name, dto.mapType, defaultStatus, submitterID, None, None,
              dto.info, ToTracks(dto.tracks), ToCredits(dto.credits, now))
  }

  /**
    The one update of a successful upload: status PENDING together with the
    stored file's URL and hash; nothing else of the record changes.
  */
  function WithUploadedFile(m: MapRecord, stored: StoredFile): (r: MapRecord)
    ensures r.status == Pending
    ensures r.downloadURL == Some(stored.downloadURL) && r.hash == Some(stored.hash)
    ensures r.id == m.id && r.name == m.name && r.mapType == m.mapType && r.submitterID == m.submitterID
    ensures r.info == m.info && r.tracks == m.tracks && r.credits == m.credits
  {
    m.(status := Pending, downloadURL := Some(stored.downloadURL), hash := Some(stored.hash))
  }

  /** The repository after an operation, and the operation's response. */
  datatype Step<+T> = Step(repo: Repo, response: T)

  /**
    Insert as a function of the repository. A failed guard is swallowed:
    the response is empty and the repository is untouched. Otherwise exactly
    one record is added under the next id, and existing records stay as they
    were.
  */
  function InsertEffect(repo: Repo, submitterID: nat, dto: CreateMapDto, now: nat): (st: Step<Option<MapRecord>>)
    requires ValidRepo(repo)
    ensures ValidRepo(st.repo)
    ensures st.response.None? <==> InsertGuards(repo.maps, submitterID, dto.name).Fail?
    ensures st.response.None? ==> st.repo == repo
    ensures st.response.Some? ==>
      && repo.nextId !in repo.maps
      && st.response.value == NewRecord(repo.nextId, submitterID, dto, now, repo.defaultStatus)
      && st.repo.maps == repo.maps[repo.nextId := st.response.value]
      && st.repo.nextId == repo.nextId + 1
      && st.repo.defaultStatus == repo.defaultStatus
  {
    if InsertGuards(repo.maps, submitterID, dto.name).Fail? then
      Step(repo, None)
    else
      var m := NewRecord(repo.nextId, submitterID, dto, now, repo.defaultStatus);
      Step(repo.(maps := repo.maps[repo.nextId := m], nextId := repo.nextId + 1), Some(m))
  }

  /**
    Upload as a function of the repository, given the file store's hash and
    URL functions. A missing map gives 404 and a map not in NEEDS_REVISION
    gives 409, both leaving the repository as it was; otherwise the map gets
    status PENDING with the URL of its storage key and the hash of the bytes,
    and no other record changes.
  */
  function UploadEffect(repo: Repo, mapID: nat, bytes: seq<bv8>,
                        hashOf: seq<bv8> -> string, urlOf: string -> string): (st: Step<Result<MapRecord>>)
    requires ValidRepo(repo)
    ensures ValidRepo(st.repo)
    ensures mapID !in repo.maps ==> st == Step(repo, Err(MapNotFound))
    ensures mapID in repo.maps && repo.maps[mapID].status != NeedsRevision ==> st == Step(repo, Err(WrongState))
    ensures mapID in repo.maps && repo.maps[mapID].status == NeedsRevision ==>
      var m := repo.maps[mapID];
      && st.response.Ok?
      && st.response.value == WithUploadedFile(m, StoredFile(urlOf(StorageKey(m.name)), hashOf(bytes)))
      && st.repo == repo.(maps := repo.maps[mapID := st.response.value])
  {
    if mapID !in repo.maps then
      Step(repo, Err(MapNotFound))
    else if repo.maps[mapID].status != NeedsRevision then
      Step(repo, Err(WrongState))
    else
      var m := repo.maps[mapID];
      var updated := WithUploadedFile(m, StoredFile(urlOf(StorageKey(m.name)), hashOf(bytes)));
      Step(repo.(maps := repo.maps[mapID := updated]), Ok(updated))
  }

  class MapsService {
    /** The map repository's records and its next auto-increment id. */
    var maps: map<nat, MapRecord>
    var nextId: nat
    /** The status the repository gives a new record. */
    const defaultStatus: Status
    /** The cloud file store map files go to. */
    const files: FileStore

    function State(): Repo
      reads this
    {
      Repo(maps, nextId, defaultStatus)
    }

    ghost predicate Valid()
      reads this
    {
      ValidRepo(State())
    }

    constructor (defaultStatus: Status, files: FileStore)
      ensures Valid()
      ensures State() == EmptyRepo(defaultStatus) && this.files == files
    {
      maps := map[];
      nextId := FirstId;
      this.defaultStatus := defaultStatus;
      this.files := files;
    }

    /** All maps in id order, paged, with the total number of maps. */
    method GetAll(skip: Option<nat>, take: Option<nat>) returns (items: seq<MapRecord>, total: nat)
      requires Valid()
      ensures items == Page(Listing(maps, nextId), skip, take)
      ensures total == |maps|
      ensures skip.None? && take.None? ==> |items| == total
    {
      ListingLength(maps, nextId);
      assert IdsBelow(maps, nextId) == maps.Keys;
      items := Page(Listing(maps, nextId), skip, take);
      total := |maps|;
    }

    /** The map with that id, if there is one. */
    method Get(id: nat) returns (m: Option<MapRecord>)
      ensures m.Some? <==> id in maps
      ensures m.Some? ==> m.value == maps[id]
    {
      if id in maps {
        m := Some(maps[id]);
      } else {
        m := None;
      }
    }

    /**
      Creates a map for `submitterID` when both guards pass; a failed guard
      is swallowed and nothing is written.
    */
    method Insert(submitterID: nat, dto: CreateMapDto, now: nat) returns (created: Option<MapRecord>)
      requires Valid()
      modifies this
      ensures Valid()
      ensures Step(State(), created) == InsertEffect(old(State()), submitterID, dto, now)
    {
      var nameCheck := VerifyMapNameNotTaken(maps, dto.name);
      if nameCheck.Fail? {
        return None;
      }
      var limitCheck := VerifyMapUploadLimitNotReached(maps, submitterID);
      if limitCheck.Fail? {
        return None;
      }
      var m := MapRecord(nextId, dto.name, dto.mapType, defaultStatus, submitterID, None, None,
                         dto.info, ToTracks(dto.tracks), ToCredits(dto.credits, now));
      maps := maps[nextId := m];
      nextId := nextId + 1;
      created := Some(m);
    }

    /**
      Uploads a map file: 404 when the map is missing, 409 unless it is in
      NEEDS_REVISION; otherwise stores the bytes under the map's storage key
      and sets status, URL and hash in one update. The file store is only
      called on the success path.
    */
    method Upload(mapID: nat, bytes: seq<bv8>) returns (r: Result<MapRecord>)
      requires Valid()
      modifies this, files
      ensures Valid()
      ensures Step(State(), r) == UploadEffect(old(State()), mapID, bytes, files.hashOf, files.urlOf)
      ensures r.Err? ==> files.objects == old(files.objects)
      ensures r.Ok? ==> files.objects == old(files.objects)[StorageKey(r.value.name) := bytes]
      ensures r.Ok? ==> r.value.hash == Some(files.hashOf(files.objects[StorageKey(r.value.name)]))
    {
      if mapID !in maps {
        return Err(MapNotFound);
      }
      var m := maps[mapID];
      if m.status != NeedsRevision {
        return Err(WrongState);
      }
      var stored := files.StoreFileCloud(bytes, StorageKey(m.name));
      var updated := m.(status := Pending, downloadURL := Some(stored.downloadURL), hash := Some(stored.hash));
      maps := maps[mapID := updated];
      r := Ok(updated);
    }
  }

}
