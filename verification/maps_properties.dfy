/**
  Properties of the map submission workflow that relate several operations
  or several states: how Insert and Upload move a submitter's PENDING count,
  the storage key's inverse, the documented scenarios, and what the name
  filter as written does.
*/
module MapsProperties {
  import opened MapModel
  import opened MapQueries
  import opened Maps

  /** The storage key can be read back to the map name, so it loses nothing of it. */
  lemma StorageKeyRoundTrip(name: string)
    ensures NameOfStorageKey(StorageKey(name)) == Some(name)
  {
  }

  /** Two maps get the same storage key exactly when they have the same name. */
  lemma StorageKeyInjective(a: string, b: string)
    ensures StorageKey(a) == StorageKey(b) <==> a == b
  {
    if StorageKey(a) == StorageKey(b) {
      StorageKeyRoundTrip(a);
      StorageKeyRoundTrip(b);
    }
  }

  /**
    Replacing a NEEDS_REVISION record by a PENDING one of the same submitter
    raises that submitter's PENDING count by one and leaves everyone else's.
  */
  lemma {:induction false} PendingCountAfterPromotion(maps: map<nat, MapRecord>, id: nat, m: MapRecord, s: nat)
    requires id in maps && maps[id].status == NeedsRevision
    requires m.status == Pending && m.submitterID == maps[id].submitterID
    ensures PendingCount(maps[id := m], s) == PendingCount(maps, s) + (if s == m.submitterID then 1 else 0)
  {
    var before := MatchingIds(maps, QuotaFilter(s));
    var after := MatchingIds(maps[id := m], QuotaFilter(s));
    assert id !in before;
    if s == m.submitterID {
      assert after == before + {id};
    } else {
      assert after == before;
    }
  }

  /**
    Adding a record under a fresh id raises its submitter's PENDING count by
    one when the record is PENDING, and changes no count otherwise.
  */
  lemma {:induction false} PendingCountAfterAdd(maps: map<nat, MapRecord>, id: nat, m: MapRecord, s: nat)
    requires id !in maps
    ensures PendingCount(maps[id := m], s)
         == PendingCount(maps, s) + (if s == m.submitterID && m.status == Pending then 1 else 0)
  {
    var before := MatchingIds(maps, QuotaFilter(s));
    var after := MatchingIds(maps[id := m], QuotaFilter(s));
    var added: set<nat> := if Matches(QuotaFilter(s), m) then {id} else {};
    forall x ensures x in after <==> x in before + added {
      if x != id {
        assert x in maps[id := m] <==> x in maps;
      }
    }
    assert after == before + added;
    assert before !! added;
  }

  /**
    A successful upload raises the owner's PENDING count by exactly one; a
    failed one changes no count.
  */
  lemma UploadPendingCount(repo: Repo, mapID: nat, bytes: seq<bv8>,
                           hashOf: seq<bv8> -> string, urlOf: string -> string, s: nat)
    requires ValidRepo(repo)
    ensures var st := UploadEffect(repo, mapID, bytes, hashOf, urlOf);
      PendingCount(st.repo.maps, s)
        == PendingCount(repo.maps, s) + (if st.response.Ok? && s == st.response.value.submitterID then 1 else 0)
  {
    var st := UploadEffect(repo, mapID, bytes, hashOf, urlOf);
    if st.response.Ok? {
      PendingCountAfterPromotion(repo.maps, mapID, st.response.value, s);
    }
  }

  /**
    Insert never raises a PENDING count unless the repository's default
    status is PENDING itself.
  */
  lemma InsertPendingCount(repo: Repo, submitterID: nat, dto: CreateMapDto, now: nat, s: nat)
    requires ValidRepo(repo)
    ensures var st := InsertEffect(repo, submitterID, dto, now);
      PendingCount(st.repo.maps, s)
        == PendingCount(repo.maps, s)
           + (if st.response.Some? && s == submitterID && repo.defaultStatus == Pending then 1 else 0)
  {
    var st := InsertEffect(repo, submitterID, dto, now);
    if st.response.Some? {
      PendingCountAfterAdd(repo.maps, repo.nextId, st.response.value, s);
    }
  }

  /**
    The quota is checked at creation only. A submitter who already has
    MapUploadLimit PENDING maps can still upload a file for a map in
    NEEDS_REVISION, and then holds more PENDING maps than the limit.
  */
  lemma QuotaDoesNotBoundPending(repo: Repo, mapID: nat, bytes: seq<bv8>,
                                 hashOf: seq<bv8> -> string, urlOf: string -> string)
    requires ValidRepo(repo)
    requires mapID in repo.maps && repo.maps[mapID].status == NeedsRevision
    requires PendingCount(repo.maps, repo.maps[mapID].submitterID) >= MapUploadLimit
    ensures var st := UploadEffect(repo, mapID, bytes, hashOf, urlOf);
      && st.response.Ok?
      && PendingCount(st.repo.maps, repo.maps[mapID].submitterID) > MapUploadLimit
  {
    UploadPendingCount(repo, mapID, bytes, hashOf, urlOf, repo.maps[mapID].submitterID);
  }

  /**
    A name held only by rejected or removed maps is free again: Insert
    succeeds when the submitter is under the quota.
  */
  lemma DeadNameCanBeReused(repo: Repo, submitterID: nat, dto: CreateMapDto, now: nat)
    requires ValidRepo(repo)
    requires forall id :: id in repo.maps && repo.maps[id].name == dto.name ==> !IsLive(repo.maps[id].status)
    requires PendingCount(repo.maps, submitterID) < MapUploadLimit
    ensures InsertEffect(repo, submitterID, dto, now).response.Some?
  {
  }

  /** A name held by a live map blocks Insert, and nothing is written. */
  lemma LiveNameBlocksInsert(repo: Repo, submitterID: nat, dto: CreateMapDto, now: nat, id: nat)
    requires ValidRepo(repo)
    requires id in repo.maps && repo.maps[id].name == dto.name && IsLive(repo.maps[id].status)
    ensures InsertGuards(repo.maps, submitterID, dto.name) == Fail(NameUsed)
    ensures InsertEffect(repo, submitterID, dto, now) == Step(repo, None)
  {
  }

  /**
    A submitter at the quota cannot create a map with a free name: the quota
    guard rejects and nothing is written.
  */
  lemma QuotaBlocksInsert(repo: Repo, submitterID: nat, dto: CreateMapDto, now: nat)
    requires ValidRepo(repo)
    requires VerifyMapNameNotTaken(repo.maps, dto.name).Pass?
    requires PendingCount(repo.maps, submitterID) >= MapUploadLimit
    ensures InsertGuards(repo.maps, submitterID, dto.name) == Fail(LimitReached)
    ensures InsertEffect(repo, submitterID, dto, now) == Step(repo, None)
  {
  }

  /**
    Create, upload, upload again: with NEEDS_REVISION as the default status,
    a created map accepts one upload, becomes PENDING with the stored file's
    URL and the hash of the bytes, and refuses a second upload with 409.
  */
  lemma CreateUploadUploadScenario(repo: Repo, submitterID: nat, dto: CreateMapDto, now: nat,
                                   first: seq<bv8>, second: seq<bv8>,
                                   hashOf: seq<bv8> -> string, urlOf: string -> string)
    requires ValidRepo(repo) && repo.defaultStatus == NeedsRevision
    requires InsertGuards(repo.maps, submitterID, dto.name).Pass?
    ensures var created := InsertEffect(repo, submitterID, dto, now);
      var id := created.response.value.id;
      var up1 := UploadEffect(created.repo, id, first, hashOf, urlOf);
      var up2 := UploadEffect(up1.repo, id, second, hashOf, urlOf);
      && created.response.Some?
      && up1.response.Ok?
      && up1.response.value.status == Pending
      && up1.response.value.hash == Some(hashOf(first))
      && up1.response.value.downloadURL == Some(urlOf(StorageKey(dto.name)))
      && up2 == Step(up1.repo, Err(WrongState))
  {
    var created := InsertEffect(repo, submitterID, dto, now);
    var id := created.response.value.id;
    assert id in created.repo.maps && created.repo.maps[id].status == NeedsRevision;
    var up1 := UploadEffect(created.repo, id, first, hashOf, urlOf);
    assert id in up1.repo.maps && up1.repo.maps[id].status == Pending;
  }

  /** A record named "Surf_Gamma" whose map was removed. */
  function RemovedGamma(): MapRecord {
    MapRecord(FirstId, "Surf_Gamma", 0, Removed, 7, None, None, MapInfo("", 0, 0, ""), [], [])
  }

  /**
    The name filter as written blocks a name whose only holder was removed,
    where the intended rule lets it through.
  */
  lemma AsWrittenNameGuardBlocksRemovedName()
    ensures VerifyMapNameNotTakenAsWritten(map[FirstId := RemovedGamma()], "Surf_Gamma") == Fail(NameUsed)
    ensures VerifyMapNameNotTaken(map[FirstId := RemovedGamma()], "Surf_Gamma") == Pass
  {
    var maps := map[FirstId := RemovedGamma()];
    assert FirstId in maps && maps[FirstId].name == "Surf_Gamma";
  }

  /**
    At the level of Insert: with a removed "Surf_Gamma" stored, the name
    guard as written rejects, so Insert as written answers nothing and
    creates no map, while the model's Insert, built on the intended rule,
    creates the map.
  */
  lemma AsWrittenInsertRefusesRemovedName(dto: CreateMapDto, submitterID: nat, now: nat)
    requires dto.name == "Surf_Gamma"
    ensures var repo := Repo(map[FirstId := RemovedGamma()], FirstId + 1, NeedsRevision);
      && ValidRepo(repo)
      && VerifyMapNameNotTakenAsWritten(repo.maps, dto.name) == Fail(NameUsed)
      && InsertEffect(repo, submitterID, dto, now).response.Some?
  {
    var repo := Repo(map[FirstId := RemovedGamma()], FirstId + 1, NeedsRevision);
    AsWrittenNameGuardBlocksRemovedName();
    PendingCountAfterAdd(map[], FirstId, RemovedGamma(), submitterID);
    assert PendingCount(map[], submitterID) == 0 by {
      assert MatchingIds(map[], QuotaFilter(submitterID)) == {};
    }
  }

  /**
    The intended guard and the guard as written agree whenever no stored map
    with that name is rejected or removed.
  */
  lemma NameGuardsAgreeOnLiveMaps(maps: map<nat, MapRecord>, name: string)
    requires forall id :: id in maps && maps[id].name == name ==> IsLive(maps[id].status)
    ensures VerifyMapNameNotTakenAsWritten(maps, name) == VerifyMapNameNotTaken(maps, name)
  {
  }
}
