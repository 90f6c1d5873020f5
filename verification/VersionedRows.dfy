/**
 * The versioned-row mission table (backend/app/storage/clickhouse.py): an
 * upsert appends a row with a higher revision, background merges may drop
 * superseded rows at any moment, and reads see the newest row per mission.
 */
module VersionedRows {
  import opened Wrappers
  import opened Mission
  import opened Projection
  import opened Ingestion
  import opened Sorting
  import opened MemoryStore

  /** A stored row. Optional text columns hold "" for an absent value. */
  datatype MissionRow = MissionRow(
    missionId: string,
    title: string,
    assignedAgent: string,
    state: MissionState,
    createdAt: Time,
    startedAt: Option<Time>,
    completedAt: Option<Time>,
    prRef: string,
    commitSha: string,
    updatedAt: Time,
    revision: nat)

  function EncodeText(v: Option<string>): string {
    if Truthy(v) then v.value else ""
  }

  function DecodeText(text: string): Option<string> {
    if text != "" then Some(text) else None
  }

  function EncodeRow(r: MissionRecord, revision: nat): MissionRow {
    MissionRow(r.missionId, r.title, EncodeText(r.assignedAgent), r.state, r.createdAt, r.startedAt, r.completedAt,
               EncodeText(r.prRef), EncodeText(r.commitSha), r.updatedAt, revision)
  }

  function DecodeRow(row: MissionRow): MissionRecord {
    MissionRecord(row.missionId, row.title, DecodeText(row.assignedAgent), row.state,
                  row.createdAt, row.startedAt, row.completedAt,
                  DecodeText(row.prRef), DecodeText(row.commitSha), row.updatedAt)
  }

  /** Every optional text of the record is absent or non-empty. */
  predicate Storable(r: MissionRecord) {
    Encodable(r.assignedAgent) && Encodable(r.prRef) && Encodable(r.commitSha)
  }

  /** The encoding loses nothing exactly on storable records. */
  lemma RoundTripIffStorable(r: MissionRecord, revision: nat)
    ensures DecodeRow(EncodeRow(r, revision)) == r <==> Storable(r)
  {
  }

  // ---------------------------------------------------------------- //
  // FINAL reads
  // ---------------------------------------------------------------- //

  /** `row` is the newest row of its mission. */
  ghost predicate Newest(rows: set<MissionRow>, row: MissionRow) {
    row in rows && forall q | q in rows && q.missionId == row.missionId :: q.revision <= row.revision
  }

  /** No two rows share a revision: one writer with a strictly increasing clock. */
  ghost predicate UniqueRevisions(rows: set<MissionRow>) {
    forall q, r | q in rows && r in rows && q.revision == r.revision :: q == r
  }

  /** The answer of `SELECT ... FINAL WHERE mission_id = m LIMIT 1`. */
  ghost predicate FinalIs(rows: set<MissionRow>, m: string, found: Option<MissionRecord>) {
    match found
    case None => forall row | row in rows :: row.missionId != m
    case Some(r) => Shows(rows, m, r)
  }

  /** The answer of `SELECT ... FINAL ORDER BY mission_id`. */
  ghost predicate FinalListing(rows: set<MissionRow>, records: seq<MissionRecord>) {
    && Ascending(Ids(records))
    && (forall i | 0 <= i < |records| :: FinalIs(rows, records[i].missionId, Some(records[i])))
    && (forall row | row in rows :: row.missionId in Ids(records))
  }

  /** The table driver: rows change by upserts and, behind its back, by merges. */
  class MissionTable {
    var rows: set<MissionRow>

    constructor ()
      ensures rows == {}
    {
      rows := {};
    }

    method UpsertMission(record: MissionRecord, revision: nat) returns (write: Write)
      modifies this
      ensures rows == if write.FailedBefore? then old(rows) else old(rows) + {EncodeRow(record, revision)}
    {
      write := *;
      if !write.FailedBefore? {
        rows := rows + {EncodeRow(record, revision)};
      }
    }

    /** A background merge: drops any rows that a newer row of the same mission supersedes. */
    method BackgroundMerge()
      modifies this
      ensures MergesTo(old(rows), rows)
    {
      var todo := rows;
      ghost var before := rows;
      while todo != {}
        invariant todo <= before && rows <= before
        invariant forall r | r in before - rows :: Superseded(before, r)
        decreases |todo|
      {
        var r :| r in todo;
        todo := todo - {r};
        var drop: bool := *;
        if drop && exists q | q in rows :: q.missionId == r.missionId && q.revision > r.revision {
          assert Superseded(before, r);
          rows := rows - {r};
        }
      }
    }

    /** Rows reduced to the newest of each mission. */
    method Final() returns (newest: map<string, MissionRow>)
      ensures forall m | m in newest :: Newest(rows, newest[m]) && newest[m].missionId == m
      ensures forall row | row in rows :: row.missionId in newest
    {
      newest := map[];
      var todo := rows;
      while todo != {}
        invariant todo <= rows
        invariant forall m | m in newest :: Newest(rows - todo, newest[m]) && newest[m].missionId == m
        invariant forall row | row in rows - todo :: row.missionId in newest
        decreases |todo|
      {
        var r :| r in todo;
        todo := todo - {r};
        if r.missionId !in newest || newest[r.missionId].revision < r.revision {
          newest := newest[r.missionId := r];
        }
      }
      assert rows - todo == rows;
    }

    method GetMission(m: string) returns (found: Option<MissionRecord>)
      ensures FinalIs(rows, m, found)
    {
      var newest := Final();
      if m in newest {
        found := Some(DecodeRow(newest[m]));
      } else {
        found := None;
      }
    }

    method ListMissions() returns (records: seq<MissionRecord>)
      ensures FinalListing(rows, records)
    {
      var newest := Final();
      var keys := SortedKeys(newest.Keys);
      records := [];
      for i := 0 to |keys|
        invariant Ids(records) == keys[..i]
        invariant forall j | 0 <= j < |records| :: FinalIs(rows, records[j].missionId, Some(records[j]))
      {
        assert keys[i] in keys;
        records := records + [DecodeRow(newest[keys[i]])];
      }
      assert Ids(records) == keys;
    }
  }

  // ---------------------------------------------------------------- //
  // Refinement of the dictionary
  // ---------------------------------------------------------------- //

  ghost predicate Superseded(rows: set<MissionRow>, r: MissionRow) {
    exists q | q in rows :: q.missionId == r.missionId && q.revision > r.revision
  }

  ghost predicate MergesTo(rows: set<MissionRow>, kept: set<MissionRow>) {
    kept <= rows && forall r | r in rows - kept :: Superseded(rows, r)
  }

  /** An upsert under a revision, or a merge leaving `kept`. */
  datatype Op = Put(record: MissionRecord, revision: nat) | Merge(kept: set<MissionRow>)

  ghost predicate Allowed(rows: set<MissionRow>, op: Op) {
    match op
    case Put(_, revision) => forall r | r in rows :: r.revision < revision
    case Merge(kept) => MergesTo(rows, kept)
  }

  function ExecRows(rows: set<MissionRow>, op: Op): set<MissionRow> {
    match op
    case Put(record, revision) => rows + {EncodeRow(record, revision)}
    case Merge(kept) => kept
  }

  function ExecDict(dict: map<string, MissionRecord>, op: Op): map<string, MissionRecord> {
    match op
    case Put(record, _) => dict[record.missionId := record]
    case Merge(_) => dict
  }

  ghost predicate AllAllowed(ops: seq<Op>) {
    ops == [] || (AllAllowed(ops[..|ops| - 1]) && Allowed(Rows(ops[..|ops| - 1]), ops[|ops| - 1]))
  }

  /** The records upserted, in order. */
  function Puts(ops: seq<Op>): seq<MissionRecord> {
    if ops == [] then [] else
      var op := ops[|ops| - 1];
      Puts(ops[..|ops| - 1]) + if op.Put? then [op.record] else []
  }

  ghost predicate AllStorable(records: seq<MissionRecord>) {
    forall i | 0 <= i < |records| :: Storable(records[i])
  }

  function Rows(ops: seq<Op>): set<MissionRow> {
    if ops == [] then {} else ExecRows(Rows(ops[..|ops| - 1]), ops[|ops| - 1])
  }

  function Dict(ops: seq<Op>): map<string, MissionRecord> {
    if ops == [] then map[] else ExecDict(Dict(ops[..|ops| - 1]), ops[|ops| - 1])
  }

  /** The newest row of mission `m` holds record `r`. */
  ghost predicate Shows(rows: set<MissionRow>, m: string, r: MissionRecord) {
    exists row :: Newest(rows, row) && row.missionId == m && DecodeRow(row) == r
  }

  /** The table stands for the dictionary. */
  ghost predicate Represents(rows: set<MissionRow>, dict: map<string, MissionRecord>) {
    && UniqueRevisions(rows)
    && (forall row | row in rows :: row.missionId in dict)
    && (forall m | m in dict :: Shows(rows, m, dict[m]))
  }

  lemma PutShows(rows: set<MissionRow>, added: MissionRow, m: string, r: MissionRecord)
    requires forall row | row in rows :: row.revision < added.revision
    ensures Shows(rows + {added}, added.missionId, DecodeRow(added))
    ensures m != added.missionId && Shows(rows, m, r) ==> Shows(rows + {added}, m, r)
  {
    assert Newest(rows + {added}, added);
    if m != added.missionId && Shows(rows, m, r) {
      var row :| Newest(rows, row) && row.missionId == m && DecodeRow(row) == r;
      assert Newest(rows + {added}, row);
    }
  }

  lemma PutRepresents(rows: set<MissionRow>, dict: map<string, MissionRecord>, record: MissionRecord, revision: nat)
    requires Represents(rows, dict) && Allowed(rows, Put(record, revision)) && Storable(record)
    ensures Represents(rows + {EncodeRow(record, revision)}, dict[record.missionId := record])
  {
    var added := EncodeRow(record, revision);
    var dict' := dict[record.missionId := record];
    RoundTripIffStorable(record, revision);
    forall m | m in dict' ensures Shows(rows + {added}, m, dict'[m]) {
      PutShows(rows, added, m, dict'[m]);
    }
  }

  lemma MergeShows(rows: set<MissionRow>, kept: set<MissionRow>, m: string, r: MissionRecord)
    requires MergesTo(rows, kept) && Shows(rows, m, r)
    ensures Shows(kept, m, r)
  {
    var row :| Newest(rows, row) && row.missionId == m && DecodeRow(row) == r;
    assert !Superseded(rows, row);
    assert Newest(kept, row);
  }

  lemma MergeRepresents(rows: set<MissionRow>, dict: map<string, MissionRecord>, kept: set<MissionRow>)
    requires Represents(rows, dict) && MergesTo(rows, kept)
    ensures Represents(kept, dict)
  {
    forall m | m in dict ensures Shows(kept, m, dict[m]) {
      MergeShows(rows, kept, m, dict[m]);
    }
  }

  /** However upserts and merges interleave, the table stands for the dictionary. */
  lemma {:induction false} TableRefinesDictionary(ops: seq<Op>)
    requires AllAllowed(ops) && AllStorable(Puts(ops))
    ensures Represents(Rows(ops), Dict(ops)) && Keyed(Dict(ops))
  {
    if ops != [] {
      var front, op := ops[..|ops| - 1], ops[|ops| - 1];
      assert forall i | 0 <= i < |Puts(front)| :: Puts(front)[i] == Puts(ops)[i];
      assert op.Put? ==> Puts(ops)[|Puts(front)|] == op.record;
      TableRefinesDictionary(front);
      if op.Put? {
        PutRepresents(Rows(front), Dict(front), op.record, op.revision);
      } else {
        MergeRepresents(Rows(front), Dict(front), op.kept);
      }
    }
  }

  lemma ShowsOne(rows: set<MissionRow>, m: string, q: MissionRecord, r: MissionRecord)
    requires UniqueRevisions(rows) && Shows(rows, m, q) && Shows(rows, m, r)
    ensures q == r
  {
    var a :| Newest(rows, a) && a.missionId == m && DecodeRow(a) == q;
    var b :| Newest(rows, b) && b.missionId == m && DecodeRow(b) == r;
    assert a.revision == b.revision;
  }

  lemma FinalOfRepresentation(
      rows: set<MissionRow>, dict: map<string, MissionRecord>, m: string, found: Option<MissionRecord>)
    requires Represents(rows, dict)
    ensures FinalIs(rows, m, found) <==> found == Lookup(dict, m)
  {
    if m in dict && found.Some? && Shows(rows, m, found.value) {
      ShowsOne(rows, m, found.value, dict[m]);
    }
    if m in dict {
      assert Shows(rows, m, dict[m]);
      assert exists row | row in rows :: row.missionId == m;
    }
  }

  /**
   * Reads of the table return exactly what the dictionary store returns:
   * the same record or the same absence for every id, and the same listing.
   */
  lemma ReadsAgree(ops: seq<Op>, m: string, found: Option<MissionRecord>, records: seq<MissionRecord>)
    requires AllAllowed(ops) && AllStorable(Puts(ops))
    ensures FinalIs(Rows(ops), m, found) <==> found == Lookup(Dict(ops), m)
    ensures FinalListing(Rows(ops), records) <==> IsListing(Dict(ops), records)
  {
    TableRefinesDictionary(ops);
    FinalOfRepresentation(Rows(ops), Dict(ops), m, found);
    forall i | 0 <= i < |records|
      ensures FinalIs(Rows(ops), records[i].missionId, Some(records[i]))
         <==> Lookup(Dict(ops), records[i].missionId) == Some(records[i])
    {
      FinalOfRepresentation(Rows(ops), Dict(ops), records[i].missionId, Some(records[i]));
    }
    if FinalListing(Rows(ops), records) {
      forall n | n in Dict(ops) ensures n in Ids(records) {
        assert Shows(Rows(ops), n, Dict(ops)[n]);
        var row :| row in Rows(ops) && row.missionId == n;
      }
    }
  }

  // ---------------------------------------------------------------- //
  // The projection kept in the table
  // ---------------------------------------------------------------- //

  /** The records upserted by a history, in order. */
  ghost function Records(h: seq<StoredEvent>): (records: seq<MissionRecord>)
    ensures |records| == |h|
  {
    if h == [] then [] else
      var front, e := h[..|h| - 1], h[|h| - 1];
      Records(front) + [Project(Replay(Of(front, MissionOf(e.body))), e)]
  }

  function DictOf(puts: seq<MissionRecord>): map<string, MissionRecord> {
    if puts == [] then map[] else DictOf(puts[..|puts| - 1])[puts[|puts| - 1].missionId := puts[|puts| - 1]]
  }

  lemma {:induction false} DictIgnoresMerges(ops: seq<Op>)
    ensures Dict(ops) == DictOf(Puts(ops))
  {
    if ops != [] {
      var front, op := ops[..|ops| - 1], ops[|ops| - 1];
      DictIgnoresMerges(front);
      if op.Put? {
        assert Puts(ops)[..|Puts(ops)| - 1] == Puts(front);
      } else {
        assert Puts(ops) == Puts(front);
      }
    }
  }

  lemma DictOneMore(puts: seq<MissionRecord>, r: MissionRecord)
    ensures DictOf(puts + [r]) == DictOf(puts)[r.missionId := r]
  {
    assert (puts + [r])[..|puts|] == puts;
  }

  lemma RecordsOneMore(h: seq<StoredEvent>, e: StoredEvent)
    ensures Records(h + [e]) == Records(h) + [Project(Replay(Of(h, MissionOf(e.body))), e)]
  {
    assert (h + [e])[..|h|] == h;
  }

  /** The dictionary of a history's upserts holds the replay of mission `m`. */
  ghost predicate HoldsReplay(h: seq<StoredEvent>, m: string) {
    Lookup(DictOf(Records(h)), m) == Replay(Of(h, m))
  }

  lemma {:induction false} RecordsReplayOneMore(h: seq<StoredEvent>, e: StoredEvent, m: string)
    requires HoldsReplay(h, m)
    ensures HoldsReplay(h + [e], m)
  {
    var r := Project(Replay(Of(h, MissionOf(e.body))), e);
    RecordsOneMore(h, e);
    DictOneMore(Records(h), r);
    OfExtends(h, e, m);
    if MissionOf(e.body) == m {
      ReplayExtends(Of(h, m), e);
      assert Replay(Of(h + [e], m)) == Some(r);
    }
  }

  lemma {:induction false} RecordsReplay(h: seq<StoredEvent>, m: string)
    ensures HoldsReplay(h, m)
  {
    if h != [] {
      var front, e := h[..|h| - 1], h[|h| - 1];
      assert h == front + [e];
      RecordsReplay(front, m);
      RecordsReplayOneMore(front, e, m);
    }
  }

  lemma LegalWithoutLast(h: seq<StoredEvent>, n: string)
    requires h != [] && LegalHistory(Of(h, n))
    ensures LegalHistory(Of(h[..|h| - 1], n))
  {
    var front := Of(h[..|h| - 1], n);
    if MissionOf(h[|h| - 1].body) == n {
      LegalPrefix(Of(h, n), |front|);
      assert Of(h, n)[..|front|] == front;
    }
  }

  lemma {:induction false} LastRecordIsStorable(h: seq<StoredEvent>)
    requires h != [] && LegalHistory(Of(h, MissionOf(h[|h| - 1].body)))
    ensures Storable(Records(h)[|h| - 1])
  {
    var front, e := h[..|h| - 1], h[|h| - 1];
    var m := MissionOf(e.body);
    ReplayExtends(Of(front, m), e);
    HistoryIsConsistent(Of(h, m), m);
  }

  /** Every record a legal history upserts survives the row encoding. */
  lemma {:induction false} ProjectedRecordsAreStorable(h: seq<StoredEvent>)
    requires forall m :: LegalHistory(Of(h, m))
    ensures AllStorable(Records(h))
  {
    if h != [] {
      var front := h[..|h| - 1];
      forall n ensures LegalHistory(Of(front, n)) {
        assert LegalHistory(Of(h, n));
        LegalWithoutLast(h, n);
      }
      ProjectedRecordsAreStorable(front);
      LastRecordIsStorable(h);
    }
  }

  /**
   * End to end: run the ingestion machine in any way, write each upsert that
   * took effect to the table under increasing revisions, merge whenever; a
   * read of the table returns the summary of the mission's history.
   */
  lemma TableHoldsTheSummary(steps: seq<Step>, ops: seq<Op>, m: string, found: Option<MissionRecord>)
    requires Runs(EMPTY, steps) && AllAllowed(ops)
    requires Puts(ops) == Records(After(EMPTY, steps).upserts)
    requires FinalIs(Rows(ops), m, found)
    ensures var t := After(EMPTY, steps);
            && found == Lookup(t.missions, m)
            && (found.Some? ==> Of(t.upserts, m) != [] && Summarises(found.value, Of(t.upserts, m)))
  {
    var t := After(EMPTY, steps);
    ReachableInv(steps);
    assert MissionOk(t, m);
    assert forall n :: LegalHistory(Of(t.upserts, n)) by {
      forall n ensures LegalHistory(Of(t.upserts, n)) {
        assert MissionOk(t, n);
      }
    }
    ProjectedRecordsAreStorable(t.upserts);
    DictIgnoresMerges(ops);
    RecordsReplay(t.upserts, m);
    ReadsAgree(ops, m, found, []);
    if found.Some? {
      ReplayIsSummary(Of(t.upserts, m), m);
    }
  }
}
