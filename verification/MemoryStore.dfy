/** The dictionary-backed mission store (backend/app/storage/memory.py), with outages at any call. */
module MemoryStore {
  import opened Wrappers
  import opened Mission
  import opened Sorting

  /** Every record is stored under its own id. */
  ghost predicate Keyed(missions: map<string, MissionRecord>) {
    forall m | m in missions :: missions[m].missionId == m
  }

  function Ids(records: seq<MissionRecord>): seq<string> {
    seq(|records|, i requires 0 <= i < |records| => records[i].missionId)
  }

  /** The records of the store, each once, in ascending order of id. */
  ghost predicate IsListing(missions: map<string, MissionRecord>, records: seq<MissionRecord>) {
    && Ascending(Ids(records))
    && (forall i | 0 <= i < |records| :: Lookup(missions, records[i].missionId) == Some(records[i]))
    && (forall m | m in missions :: m in Ids(records))
  }

  /** A store has exactly one listing. */
  lemma ListingIsUnique(missions: map<string, MissionRecord>, a: seq<MissionRecord>, b: seq<MissionRecord>)
    requires IsListing(missions, a) && IsListing(missions, b)
    ensures a == b
  {
    forall x ensures x in Ids(a) <==> x in Ids(b) {
      if x in Ids(a) {
        var i :| 0 <= i < |Ids(a)| && Ids(a)[i] == x;
        assert a[i].missionId == x;
      }
      if x in Ids(b) {
        var i :| 0 <= i < |Ids(b)| && Ids(b)[i] == x;
        assert b[i].missionId == x;
      }
    }
    AscendingIsUnique(Ids(a), Ids(b));
    assert |a| == |Ids(a)| == |b|;
    forall i | 0 <= i < |a| ensures a[i] == b[i] {
      assert Ids(a)[i] == Ids(b)[i];
    }
  }

  class MissionStore {
    var missions: map<string, MissionRecord>

    constructor ()
      ensures missions == map[]
    {
      missions := map[];
    }

    method UpsertMission(record: MissionRecord) returns (write: Write)
      modifies this
      ensures missions == if write.FailedBefore? then old(missions) else old(missions)[record.missionId := record]
    {
      write := *;
      if !write.FailedBefore? {
        missions := missions[record.missionId := record];
      }
    }

    method GetMission(m: string) returns (found: Fetched<Option<MissionRecord>>)
      ensures found.Ok? ==> found.value == Lookup(missions, m)
    {
      var up: bool := *;
      if !up {
        return StorageError;
      }
      found := Ok(if m in missions then Some(missions[m]) else None);
    }

    method ListMissions() returns (found: Fetched<seq<MissionRecord>>)
      requires Keyed(missions)
      ensures found.Ok? ==> IsListing(missions, found.value)
    {
      var up: bool := *;
      if !up {
        return StorageError;
      }
      var keys := SortedKeys(missions.Keys);
      var records: seq<MissionRecord> := [];
      for i := 0 to |keys|
        invariant Ids(records) == keys[..i]
        invariant forall j | 0 <= j < |records| :: keys[j] in missions && records[j] == missions[keys[j]]
      {
        assert keys[i] in keys;
        records := records + [missions[keys[i]]];
      }
      assert Ids(records) == keys;
      found := Ok(records);
    }
  }
}
