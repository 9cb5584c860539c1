/** Combined IDs and the closure of parent stations (internal/utils/api.go,
    internal/restapi/reference_utils.go, internal/restapi/stops_for_location_handler.go). */
module ParentStations {
  import opened Collections

  /* ---------- Combined IDs ---------- */

  function FormCombinedID(agencyID: string, codeID: string): string {
    if codeID == "" || agencyID == "" then "" else agencyID + "_" + codeID
  }

  /** The position of the first underscore, or the length if there is none. */
  function FirstUnderscore(s: string): (k: nat)
    ensures k <= |s| && (k < |s| ==> s[k] == '_') && forall i :: 0 <= i < k ==> s[i] != '_'
  {
    if s == [] || s[0] == '_' then 0
    else
      var k := FirstUnderscore(s[1..]);
      assert forall i :: 0 < i < k + 1 ==> s[i] == s[1..][i - 1];
      k + 1
  }

  /** Splits at the first underscore only. */
  function ExtractAgencyIDAndCodeID(combined: string): Option<(string, string)> {
    var k := FirstUnderscore(combined);
    if k == |combined| then None else Some((combined[..k], combined[k + 1..]))
  }

  /** The two parts of a combined ID that names something. */
  function Parse(combined: string): Option<(string, string)> {
    var parts := ExtractAgencyIDAndCodeID(combined);
    if parts.Some? && parts.value.0 != "" && parts.value.1 != "" then parts else None
  }

  /** Forming undoes extracting, on every ID that parses. */
  lemma FormUndoesExtract(combined: string)
    requires Parse(combined).Some?
    ensures FormCombinedID(Parse(combined).value.0, Parse(combined).value.1) == combined
  {
    var k := FirstUnderscore(combined);
    assert combined == combined[..k] + "_" + combined[k + 1..];
  }

  /** Extracting undoes forming exactly when both parts are there and the agency ID holds no underscore. */
  lemma ExtractUndoesForm(agencyID: string, codeID: string)
    ensures Parse(FormCombinedID(agencyID, codeID)) == Some((agencyID, codeID))
            <==> agencyID != "" && codeID != "" && '_' !in agencyID
  {
    if agencyID != "" && codeID != "" {
      var combined := FormCombinedID(agencyID, codeID);
      var k := FirstUnderscore(combined);
      assert combined[|agencyID|] == '_';
      assert forall i :: 0 <= i < |agencyID| ==> combined[i] == agencyID[i];
      assert combined[|agencyID| + 1..] == codeID && combined[..|agencyID|] == agencyID;
      if k == |agencyID| {
        assert '_' !in agencyID;
      } else {
        assert combined[..k] != agencyID;
        assert agencyID[k] == '_';
      }
    }
  }

  /* ---------- Removing duplicates ---------- */

  /** Keeps the first occurrence of each value, in order. */
  function Unique(values: seq<string>): seq<string> {
    if values == [] then []
    else
      var before, v := Unique(values[..|values| - 1]), values[|values| - 1];
      if v in before then before else before + [v]
  }

  method DedupeStrings(values: seq<string>) returns (unique: seq<string>)
    ensures unique == Unique(values)
  {
    var seen: set<string> := {};
    unique := [];
    assert values[..0] == [];
    for i := 0 to |values|
      invariant unique == Unique(values[..i])
      invariant forall v :: v in seen <==> v in unique
    {
      assert values[..i + 1][..i] == values[..i];
      if values[i] !in seen {
        seen := seen + {values[i]};
        unique := unique + [values[i]];
      }
    }
    assert values[..|values|] == values;
  }

  lemma {:induction false} UniqueKeepsValues(values: seq<string>)
    ensures Distinct(Unique(values))
    ensures forall v :: v in Unique(values) <==> v in values
  {
    if values != [] {
      UniqueKeepsValues(values[..|values| - 1]);
      assert values == values[..|values| - 1] + [values[|values| - 1]];
    }
  }

  /** More values only add at the end, so values stand in the order they first occur. */
  lemma {:induction false} UniqueGrowsAtEnd(values: seq<string>, more: seq<string>)
    ensures Unique(values) <= Unique(values + more)
    ensures forall v :: v in Unique(values + more)[|Unique(values)|..] ==> v !in values && v in more
  {
    if more == [] {
      assert values + more == values;
    } else {
      var last := |more| - 1;
      assert (values + more)[..|values + more| - 1] == values + more[..last];
      UniqueGrowsAtEnd(values, more[..last]);
      UniqueKeepsValues(values);
      UniqueKeepsValues(values + more[..last]);
      assert more == more[..last] + [more[last]];
    }
  }

  lemma {:induction false} UniqueOfDistinct(values: seq<string>)
    requires Distinct(values)
    ensures Unique(values) == values
  {
    if values != [] {
      var last := |values| - 1;
      UniqueOfDistinct(values[..last]);
      assert values == values[..last] + [values[last]];
    }
  }

  /* ---------- Stop records ---------- */

  /** A stop in a response: combined ID and combined parent ID, "" for none. */
  datatype StopRecord = StopRecord(id: string, parent: string)

  /** The stops table: each stop's parent station, "" for none. */
  type StopTable = map<string, string>

  function RecordOf(agencyID: string, stopID: string, db: StopTable): StopRecord
    requires stopID in db
  {
    StopRecord(FormCombinedID(agencyID, stopID), if db[stopID] == "" then "" else FormCombinedID(agencyID, db[stopID]))
  }

  /** The record a combined ID stands for, if it parses and the stop exists. */
  function Lookup(combined: string, db: StopTable): Option<StopRecord> {
    var parts := Parse(combined);
    if parts.Some? && parts.value.1 in db then Some(RecordOf(parts.value.0, parts.value.1, db)) else None
  }

  /** The ID parses and names a stop of the table. */
  predicate NamesStored(id: string, db: StopTable) {
    Parse(id).Some? && Parse(id).value.1 in db
  }

  /** The combined ID, under the same agency, of the parent the table gives the stop; "" for none. */
  function ParentInTable(id: string, db: StopTable): string
    requires NamesStored(id, db)
  {
    var (agencyID, raw) := Parse(id).value;
    if db[raw] != "" then FormCombinedID(agencyID, db[raw]) else ""
  }

  /** The record is that of a stored stop and carries the parent the table gives it. */
  predicate TellsTheTable(r: StopRecord, db: StopTable) {
    NamesStored(r.id, db) && r.parent == ParentInTable(r.id, db)
  }

  lemma LookupTellsTheTable(r: StopRecord, db: StopTable)
    ensures Lookup(r.id, db).Some? <==> NamesStored(r.id, db)
    ensures Lookup(r.id, db) == Some(r) <==> TellsTheTable(r, db)
  {
    if Parse(r.id).Some? { FormUndoesExtract(r.id); }
  }

  predicate HasRecord(records: seq<StopRecord>, id: string) {
    exists i :: 0 <= i < |records| && records[i].id == id
  }

  predicate NamedAsParent(records: seq<StopRecord>, id: string) {
    id != "" && exists i :: 0 <= i < |records| && records[i].parent == id
  }

  ghost predicate DistinctIDs(records: seq<StopRecord>) {
    forall i, j :: 0 <= i < j < |records| ==> records[i].id != records[j].id
  }

  /* ---------- One round ---------- */

  /** The parents of pending stops that have not been seen. */
  ghost predicate IsNewParent(pending: seq<StopRecord>, seen: set<string>, p: string) {
    p !in seen && NamedAsParent(pending, p)
  }

  /** The grouped IDs are exactly the parsed new parents, each once. */
  ghost predicate GroupsNewParents(byAgency: map<string, seq<string>>, pending: seq<StopRecord>, seen: set<string>) {
    && (forall a, raw :: raw in Get(byAgency, a) ==> IsGrouped(pending, seen, a, raw))
    && (forall p :: IsNewParent(pending, seen, p) && Parse(p).Some? ==>
          Parse(p).value.1 in Get(byAgency, Parse(p).value.0))
    && (forall a :: Distinct(Get(byAgency, a)))
    && (forall a :: a in byAgency ==> byAgency[a] != [])
  }

  ghost predicate IsGrouped(pending: seq<StopRecord>, seen: set<string>, a: string, raw: string) {
    Parse(FormCombinedID(a, raw)) == Some((a, raw)) && IsNewParent(pending, seen, FormCombinedID(a, raw))
  }

  ghost predicate SeenAfter(seen: set<string>, pending: seq<StopRecord>, seen': set<string>) {
    forall p :: p in seen' <==> p in seen || NamedAsParent(pending, p)
  }

  lemma NamedSnoc(records: seq<StopRecord>, r: StopRecord, p: string)
    ensures NamedAsParent(records + [r], p) <==> NamedAsParent(records, p) || (p != "" && r.parent == p)
  {
    var all := records + [r];
    assert all[|records|] == r;
    if NamedAsParent(records, p) {
      var i :| 0 <= i < |records| && records[i].parent == p;
      assert all[i].parent == p;
    }
  }

  lemma GroupOneMore(byAgency: map<string, seq<string>>, done: seq<StopRecord>, r: StopRecord, seen: set<string>,
                     a: string, raw: string)
    requires GroupsNewParents(byAgency, done, seen)
    requires r.parent != "" && r.parent !in seen && !NamedAsParent(done, r.parent) && Parse(r.parent) == Some((a, raw))
    ensures GroupsNewParents(byAgency[a := Get(byAgency, a) + [raw]], done + [r], seen)
  {
    var next := byAgency[a := Get(byAgency, a) + [raw]];
    FormUndoesExtract(r.parent);
    forall p ensures NamedAsParent(done + [r], p) <==> NamedAsParent(done, p) || (p != "" && r.parent == p) {
      NamedSnoc(done, r, p);
    }
    assert raw !in Get(byAgency, a);
    forall b, x | x in Get(next, b) ensures IsGrouped(done + [r], seen, b, x) {
      if x in Get(byAgency, b) { assert IsGrouped(done, seen, b, x); }
    }
    forall b ensures Distinct(Get(next, b)) { assert Distinct(Get(byAgency, b)); }
  }

  /** Marks every parent seen, also one that does not parse, and groups the new ones by agency. */
  method ParentIDsByAgency(pending: seq<StopRecord>, seen: set<string>)
    returns (byAgency: map<string, seq<string>>, seen': set<string>)
    ensures GroupsNewParents(byAgency, pending, seen)
    ensures SeenAfter(seen, pending, seen')
  {
    byAgency, seen' := map[], seen;
    for i := 0 to |pending|
      invariant GroupsNewParents(byAgency, pending[..i], seen)
      invariant SeenAfter(seen, pending[..i], seen')
    {
      var r := pending[i];
      assert pending[..i + 1] == pending[..i] + [r];
      forall p
        ensures NamedAsParent(pending[..i + 1], p) <==> NamedAsParent(pending[..i], p) || (p != "" && r.parent == p)
      {
        NamedSnoc(pending[..i], r, p);
      }
      if r.parent == "" || r.parent in seen' {
        continue;
      }
      seen' := seen' + {r.parent};
      var parts := ExtractAgencyIDAndCodeID(r.parent);
      if parts.None? || parts.value.0 == "" || parts.value.1 == "" {
        continue;
      }
      var (agencyID, rawID) := parts.value;
      GroupOneMore(byAgency, pending[..i], r, seen, agencyID, rawID);
      byAgency := byAgency[agencyID := Get(byAgency, agencyID) + [rawID]];
    }
    assert pending[..|pending|] == pending;
  }

  function StoredIn(db: StopTable): string -> bool {
    stopID => stopID in db
  }

  function RecordFor(agencyID: string, db: StopTable): string -> StopRecord {
    stopID => if stopID in db then RecordOf(agencyID, stopID, db) else StopRecord("", "")
  }

  function RecordsOf(agencyID: string, stopIDs: seq<string>, db: StopTable): seq<StopRecord> {
    Map(RecordFor(agencyID, db), Filter(StoredIn(db), stopIDs))
  }

  lemma RecordsNext(agencyID: string, s: seq<string>, i: nat, db: StopTable)
    requires i < |s|
    ensures RecordsOf(agencyID, s[..i + 1], db)
            == RecordsOf(agencyID, s[..i], db) + (if s[i] in db then [RecordOf(agencyID, s[i], db)] else [])
  {
    assert s[..i + 1] == s[..i] + [s[i]];
    FilterSnoc(StoredIn(db), s[..i], s[i]);
  }

  method StopModelsByIDs(agencyID: string, stopIDs: seq<string>, db: StopTable) returns (records: seq<StopRecord>)
    ensures records == RecordsOf(agencyID, Unique(stopIDs), db)
    ensures var kept := Filter((stopID: string) => stopID in db, Unique(stopIDs));
      && |records| == |kept|
      && forall i :: 0 <= i < |kept| ==>
           && kept[i] in kept && records[i].id == FormCombinedID(agencyID, kept[i])
           && records[i].parent == if db[kept[i]] == "" then "" else FormCombinedID(agencyID, db[kept[i]])
  {
    var unique := DedupeStrings(stopIDs);
    records := [];
    assert unique[..0] == [];
    for i := 0 to |unique|
      invariant records == RecordsOf(agencyID, unique[..i], db)
    {
      RecordsNext(agencyID, unique, i, db);
      if unique[i] !in db { continue; }
      records := records + [RecordOf(agencyID, unique[i], db)];
    }
    assert unique[..|unique|] == unique;
    FilterSame(StoredIn(db), (stopID: string) => stopID in db, unique);
  }

  ghost predicate IsBatchRecord(r: StopRecord, a: string, db: StopTable, pending: seq<StopRecord>, seen: set<string>) {
    IsNewParent(pending, seen, r.id) && Lookup(r.id, db) == Some(r) && Parse(r.id).value.0 == a
  }

  /** What one agency's batch of new parents returns. */
  lemma BatchRecords(a: string, raws: seq<string>, db: StopTable, pending: seq<StopRecord>, seen: set<string>)
    requires Distinct(raws) && forall raw :: raw in raws ==> IsGrouped(pending, seen, a, raw)
    ensures var rs := RecordsOf(a, raws, db);
      && DistinctIDs(rs)
      && (forall i :: 0 <= i < |rs| ==> IsBatchRecord(rs[i], a, db, pending, seen))
      && forall raw :: raw in raws && raw in db ==> HasRecord(rs, FormCombinedID(a, raw))
  {
    var stored, rs := Filter(StoredIn(db), raws), RecordsOf(a, raws, db);
    FilterKeepsDistinct(StoredIn(db), raws);
    forall i | 0 <= i < |rs|
      ensures stored[i] in db && IsGrouped(pending, seen, a, stored[i]) && rs[i] == RecordOf(a, stored[i], db)
    {
      assert stored[i] in stored;
    }
    forall i | 0 <= i < |rs| ensures IsBatchRecord(rs[i], a, db, pending, seen) {
      assert IsGrouped(pending, seen, a, stored[i]);
    }
    forall i, j | 0 <= i < j < |rs| ensures rs[i].id != rs[j].id {
      assert IsGrouped(pending, seen, a, stored[i]) && IsGrouped(pending, seen, a, stored[j]);
    }
    forall raw | raw in raws && raw in db ensures HasRecord(rs, FormCombinedID(a, raw)) {
      assert raw in stored;
      var i :| 0 <= i < |stored| && stored[i] == raw;
      assert rs[i].id == FormCombinedID(a, raw);
    }
  }

  /** A round's records for the given agencies: each new parent that resolves, once. */
  ghost predicate Fetched(next: seq<StopRecord>, agencies: set<string>, db: StopTable, pending: seq<StopRecord>,
                          seen: set<string>)
  {
    && DistinctIDs(next)
    && (forall i :: 0 <= i < |next| ==>
          && IsNewParent(pending, seen, next[i].id) && Lookup(next[i].id, db) == Some(next[i])
          && Parse(next[i].id).value.0 in agencies)
    && forall p :: IsNewParent(pending, seen, p) && Lookup(p, db).Some? && Parse(p).value.0 in agencies ==>
         HasRecord(next, p)
  }

  lemma HasRecordConcat(s: seq<StopRecord>, t: seq<StopRecord>, id: string)
    ensures HasRecord(s + t, id) <==> HasRecord(s, id) || HasRecord(t, id)
  {
    if HasRecord(s, id) {
      var i :| 0 <= i < |s| && s[i].id == id;
      assert (s + t)[i].id == id;
    }
    if HasRecord(t, id) {
      var i :| 0 <= i < |t| && t[i].id == id;
      assert (s + t)[|s| + i].id == id;
    }
  }

  lemma FetchedNext(next: seq<StopRecord>, agencies: set<string>, db: StopTable, pending: seq<StopRecord>,
                    seen: set<string>,
                    byAgency: map<string, seq<string>>, a: string)
    requires GroupsNewParents(byAgency, pending, seen) && Fetched(next, agencies, db, pending, seen) && a !in agencies
    ensures Fetched(next + RecordsOf(a, Get(byAgency, a), db), agencies + {a}, db, pending, seen)
  {
    var raws := Get(byAgency, a);
    var rs := RecordsOf(a, raws, db);
    forall raw | raw in raws ensures IsGrouped(pending, seen, a, raw) { }
    BatchRecords(a, raws, db, pending, seen);
    assert forall i :: 0 <= i < |rs| ==> IsBatchRecord(rs[i], a, db, pending, seen);
    forall p | IsNewParent(pending, seen, p) && Lookup(p, db).Some? && Parse(p).value.0 in agencies + {a}
      ensures HasRecord(next + rs, p)
    {
      HasRecordConcat(next, rs, p);
      if Parse(p).value.0 == a { FormUndoesExtract(p); }
    }
  }

  method FetchAgency(byAgency: map<string, seq<string>>, a: string, db: StopTable, next: seq<StopRecord>,
                     ghost done: set<string>, ghost pending: seq<StopRecord>, ghost seen: set<string>)
    returns (next': seq<StopRecord>)
    requires a in byAgency && a !in done
    requires GroupsNewParents(byAgency, pending, seen) && Fetched(next, done, db, pending, seen)
    ensures Fetched(next', done + {a}, db, pending, seen)
  {
    assert Distinct(Get(byAgency, a));
    UniqueOfDistinct(byAgency[a]);
    var records := StopModelsByIDs(a, byAgency[a], db);
    FetchedNext(next, done, db, pending, seen, byAgency, a);
    next' := next + records;
  }

  method FetchParentStops(byAgency: map<string, seq<string>>, db: StopTable, ghost pending: seq<StopRecord>,
                          ghost seen: set<string>)
    returns (next: seq<StopRecord>)
    requires GroupsNewParents(byAgency, pending, seen)
    ensures Fetched(next, byAgency.Keys, db, pending, seen)
  {
    next := [];
    var agencies := SortStrings(byAgency.Keys);
    AscendingDistinct(agencies);
    assert Members(agencies) == byAgency.Keys;
    assert agencies[..0] == [] && agencies[..|agencies|] == agencies;
    for i := 0 to |agencies|
      invariant Fetched(next, Members(agencies[..i]), db, pending, seen)
    {
      assert agencies[i] !in Members(agencies[..i])
          && Members(agencies[..i + 1]) == Members(agencies[..i]) + {agencies[i]};
      next := FetchAgency(byAgency, agencies[i], db, next, Members(agencies[..i]), pending, seen);
    }
  }

  /* ---------- The closure ---------- */

  /** A non-empty parent is on the list, does not parse, or is not in the table. */
  predicate ParentResolved(r: StopRecord, all: seq<StopRecord>, db: StopTable) {
    r.parent == "" || HasRecord(all, r.parent) || !NamesStored(r.parent, db)
  }

  /** The parent the table gives a stored stop is none, on the list, does not parse, or is not in the table. */
  predicate TableParentResolved(id: string, all: seq<StopRecord>, db: StopTable)
    requires NamesStored(id, db)
  {
    var parent := ParentInTable(id, db);
    parent == "" || HasRecord(all, parent) || !NamesStored(parent, db)
  }

  /** Everything added is a stored stop, with the parent the table gives it, that an earlier record
      names as its parent. */
  ghost predicate Justified(stops: seq<StopRecord>, added: seq<StopRecord>, db: StopTable) {
    forall i :: 0 <= i < |added| ==> TellsTheTable(added[i], db) && NamedAsParent(stops + added[..i], added[i].id)
  }

  /** The IDs the closure can ever look at: the given parents and, under their agencies, any parent
      stored in the database. */
  ghost function AgenciesOf(stops: seq<StopRecord>): set<string> {
    set r | r in stops && Parse(r.parent).Some? :: Parse(r.parent).value.0
  }

  ghost function Universe(stops: seq<StopRecord>, db: StopTable): set<string> {
    (set r | r in stops :: r.parent) + set a, s | a in AgenciesOf(stops) && s in db :: FormCombinedID(a, db[s])
  }

  ghost predicate WithinUniverse(stops: seq<StopRecord>, records: seq<StopRecord>, db: StopTable) {
    forall i :: 0 <= i < |records| && records[i].parent != "" ==>
      && records[i].parent in Universe(stops, db)
      && (Parse(records[i].parent).Some? ==> Parse(records[i].parent).value.0 in AgenciesOf(stops))
  }

  lemma FetchedStayInUniverse(stops: seq<StopRecord>, pending: seq<StopRecord>, seen: set<string>,
                              next: seq<StopRecord>,
                              agencies: set<string>, db: StopTable)
    requires WithinUniverse(stops, pending, db) && Fetched(next, agencies, db, pending, seen)
    ensures WithinUniverse(stops, next, db)
  {
    forall i | 0 <= i < |next| && next[i].parent != ""
      ensures next[i].parent in Universe(stops, db)
      ensures Parse(next[i].parent).Some? ==> Parse(next[i].parent).value.0 in AgenciesOf(stops)
    {
      var id := next[i].id;
      var k :| 0 <= k < |pending| && pending[k].parent == id;
      var (a, raw) := Parse(id).value;
      assert a in AgenciesOf(stops) && raw in db;
      assert next[i].parent == FormCombinedID(a, db[raw]);
      FormUndoesExtract(id);
      ExtractUndoesForm(a, raw);
      ExtractUndoesForm(a, db[raw]);
    }
  }

  /** A round whose groups are not empty sees some ID for the first time. */
  lemma RoundSeesMore(byAgency: map<string, seq<string>>, pending: seq<StopRecord>, seen: set<string>,
                      seen': set<string>)
    requires GroupsNewParents(byAgency, pending, seen) && SeenAfter(seen, pending, seen') && byAgency != map[]
    ensures seen < seen'
  {
    var a :| a in byAgency;
    var raw := byAgency[a][0];
    assert raw in Get(byAgency, a);
    assert IsGrouped(pending, seen, a, raw);
    assert FormCombinedID(a, raw) in seen' && FormCombinedID(a, raw) !in seen;
  }

  /* ---------- The loop over rounds ---------- */

  /** Every ID seen so far is on the list or cannot be resolved. */
  ghost predicate SeenIsSettled(seen: set<string>, all: seq<StopRecord>, db: StopTable) {
    forall p :: p in seen ==> HasRecord(all, p) || !NamesStored(p, db)
  }

  ghost predicate ListedIsSeen(all: seq<StopRecord>, seen: set<string>) {
    forall i :: 0 <= i < |all| && all[i].id != "" ==> all[i].id in seen
  }

  /** The parents of all but the pending records have been seen. */
  ghost predicate ParentsSeen(done: seq<StopRecord>, seen: set<string>) {
    forall i :: 0 <= i < |done| ==> done[i].parent == "" || done[i].parent in seen
  }

  ghost predicate NewToList(stops: seq<StopRecord>, added: seq<StopRecord>) {
    DistinctIDs(added) && forall i :: 0 <= i < |added| ==> added[i].id != "" && !HasRecord(stops, added[i].id)
  }

  ghost predicate Invariant(stops: seq<StopRecord>, added: seq<StopRecord>, done: seq<StopRecord>,
                            pending: seq<StopRecord>,
                            seen: set<string>, db: StopTable) {
    && stops + added == done + pending
    && ListedIsSeen(stops + added, seen)
    && SeenIsSettled(seen, stops + added, db)
    && ParentsSeen(done, seen)
    && NewToList(stops, added)
    && Justified(stops, added, db)
  }

  lemma NextIsNew(stops: seq<StopRecord>, added: seq<StopRecord>, next: seq<StopRecord>, agencies: set<string>,
                  pending: seq<StopRecord>, seen: set<string>, db: StopTable)
    requires NewToList(stops, added) && ListedIsSeen(stops + added, seen)
    requires Fetched(next, agencies, db, pending, seen)
    ensures NewToList(stops, added + next)
  {
    forall i | 0 <= i < |next|
      ensures next[i].id != "" && !HasRecord(stops, next[i].id) && !HasRecord(added, next[i].id)
    {
      assert IsNewParent(pending, seen, next[i].id);
      forall k | 0 <= k < |stops| ensures stops[k].id != next[i].id { assert (stops + added)[k] == stops[k]; }
      forall k | 0 <= k < |added| ensures added[k].id != next[i].id { assert (stops + added)[|stops| + k] == added[k]; }
    }
    var all := added + next;
    forall i, j | 0 <= i < j < |all| ensures all[i].id != all[j].id {
      if j >= |added| {
        assert all[j] == next[j - |added|] && !HasRecord(added, next[j - |added|].id);
        if i >= |added| { assert all[i] == next[i - |added|]; }
      }
    }
  }

  lemma NextIsSettled(all: seq<StopRecord>, next: seq<StopRecord>, agencies: set<string>,
                      byAgency: map<string, seq<string>>,
                      pending: seq<StopRecord>, seen: set<string>, seen': set<string>, db: StopTable)
    requires SeenIsSettled(seen, all, db) && GroupsNewParents(byAgency, pending, seen)
            && SeenAfter(seen, pending, seen')
    requires Fetched(next, byAgency.Keys, db, pending, seen)
    ensures SeenIsSettled(seen', all + next, db)
  {
    forall p | p in seen' && NamesStored(p, db) ensures HasRecord(all + next, p) {
      HasRecordConcat(all, next, p);
      if p !in seen {
        assert IsNewParent(pending, seen, p) && Parse(p).value.1 in Get(byAgency, Parse(p).value.0);
      }
    }
  }

  lemma NamedStays(records: seq<StopRecord>, more: seq<StopRecord>, p: string)
    requires NamedAsParent(records, p)
    ensures NamedAsParent(more + records, p) && NamedAsParent(records + more, p)
  {
    var i :| 0 <= i < |records| && records[i].parent == p;
    assert (more + records)[|more| + i].parent == p && (records + more)[i].parent == p;
  }

  lemma NextOneJustified(stops: seq<StopRecord>, added: seq<StopRecord>, next: seq<StopRecord>,
                         done: seq<StopRecord>, pending: seq<StopRecord>, i: nat)
    requires i < |next| && stops + added == done + pending && NamedAsParent(pending, next[i].id)
    ensures (added + next)[|added| + i] == next[i]
    ensures NamedAsParent(stops + (added + next)[..|added| + i], next[i].id)
  {
    NamedStays(pending, done, next[i].id);
    NamedStays(done + pending, next[..i], next[i].id);
    assert (added + next)[..|added| + i] == added + next[..i];
    assert stops + (added + next[..i]) == (stops + added) + next[..i];
  }

  lemma NextIsJustified(stops: seq<StopRecord>, added: seq<StopRecord>, next: seq<StopRecord>, agencies: set<string>,
                        done: seq<StopRecord>, pending: seq<StopRecord>, seen: set<string>, db: StopTable)
    requires Justified(stops, added, db) && stops + added == done + pending
            && Fetched(next, agencies, db, pending, seen)
    ensures Justified(stops, added + next, db)
  {
    var all := added + next;
    forall i | 0 <= i < |all|
      ensures TellsTheTable(all[i], db) && NamedAsParent(stops + all[..i], all[i].id)
    {
      if i < |added| {
        assert all[..i] == added[..i];
      } else {
        assert IsNewParent(pending, seen, next[i - |added|].id);
        LookupTellsTheTable(next[i - |added|], db);
        NextOneJustified(stops, added, next, done, pending, i - |added|);
      }
    }
  }

  lemma RoundKeepsInvariant(stops: seq<StopRecord>, added: seq<StopRecord>, done: seq<StopRecord>,
                            pending: seq<StopRecord>,
                            byAgency: map<string, seq<string>>, next: seq<StopRecord>,
                            seen: set<string>, seen': set<string>, db: StopTable)
    requires Invariant(stops, added, done, pending, seen, db)
    requires GroupsNewParents(byAgency, pending, seen) && SeenAfter(seen, pending, seen')
    requires Fetched(next, byAgency.Keys, db, pending, seen)
    ensures Invariant(stops, added + next, done + pending, next, seen', db)
  {
    var all := stops + added;
    assert stops + (added + next) == all + next;
    NextIsNew(stops, added, next, byAgency.Keys, pending, seen, db);
    NextIsSettled(all, next, byAgency.Keys, byAgency, pending, seen, seen', db);
    NextIsJustified(stops, added, next, byAgency.Keys, done, pending, seen, db);
  }

  method SeenStopIDs(stops: seq<StopRecord>) returns (seen: set<string>)
    ensures seen == set r | r in stops && r.id != "" :: r.id
  {
    seen := {};
    for i := 0 to |stops|
      invariant seen == set r | r in stops[..i] && r.id != "" :: r.id
    {
      assert stops[..i + 1] == stops[..i] + [stops[i]];
      if stops[i].id != "" { seen := seen + {stops[i].id}; }
    }
    assert stops[..|stops|] == stops;
  }

  lemma InvariantAtStart(stops: seq<StopRecord>, seen: set<string>, db: StopTable)
    requires seen == set r | r in stops && r.id != "" :: r.id
    ensures Invariant(stops, [], [], stops, seen, db)
  {
    assert stops + [] == [] + stops == stops;
    forall p | p in seen ensures HasRecord(stops, p) {
      var r :| r in stops && r.id != "" && r.id == p;
      var i :| 0 <= i < |stops| && stops[i] == r;
      assert stops[i].id == p;
    }
  }

  /** Adds the missing parents, round by round, on any parent graph, cycles included. `failedRounds`
      are the rounds whose query fails. The records added are new, each once, each a stored stop some
      earlier record names, carrying the parent the table gives it; and with them every parent, also
      the one the table gives a stop that was added, is on the list, unparseable or not stored. */
  method MissingParentStops(stops: seq<StopRecord>, db: StopTable, failedRounds: set<nat>)
    returns (r: Option<seq<StopRecord>>)
    ensures failedRounds == {} ==> r.Some?
    ensures r.Some? ==>
      var all := stops + r.value;
      && NewToList(stops, r.value)
      && Justified(stops, r.value, db)
      && (forall i :: 0 <= i < |all| ==> ParentResolved(all[i], all, db))
      && forall i :: 0 <= i < |r.value| ==> TableParentResolved(r.value[i].id, all, db)
  {
    var seen := SeenStopIDs(stops);
    var added: seq<StopRecord>, pending, round := [], stops, 0;
    ghost var done: seq<StopRecord> := [];
    InvariantAtStart(stops, seen, db);
    while |pending| > 0
      invariant Invariant(stops, added, done, pending, seen, db)
      invariant WithinUniverse(stops, pending, db)
      decreases Universe(stops, db) - seen, |pending|
    {
      var byAgency, seen' := ParentIDsByAgency(pending, seen);
      if byAgency == map[] {
        done, pending, seen := done + pending, [], seen';
        break;
      }
      if round in failedRounds { return None; }
      round := round + 1;
      RoundSeesMore(byAgency, pending, seen, seen');
      var next := FetchParentStops(byAgency, db, pending, seen);
      RoundKeepsInvariant(stops, added, done, pending, byAgency, next, seen, seen', db);
      FetchedStayInUniverse(stops, pending, seen, next, byAgency.Keys, db);
      done, added, pending, seen := done + pending, added + next, next, seen';
    }
    assert done + [] == done;
    r := Some(added);
    forall i | 0 <= i < |added| ensures TableParentResolved(added[i].id, stops + added, db) {
      assert (stops + added)[|stops| + i] == added[i];
    }
  }

  /** Which stops are added does not depend on the order of rounds and agencies: two lists that are
      both justified and closed hold the same IDs. */
  lemma {:induction false} ClosureIsUnique(stops: seq<StopRecord>, s: seq<StopRecord>, t: seq<StopRecord>,
                                           db: StopTable, k: nat)
    requires k < |s| && NewToList(stops, s) && Justified(stops, s, db)
    requires forall i :: 0 <= i < |stops + t| ==> ParentResolved((stops + t)[i], stops + t, db)
    requires forall i :: 0 <= i < |t| ==> TellsTheTable(t[i], db)
    ensures HasRecord(t, s[k].id)
  {
    var all := stops + s[..k];
    var id := s[k].id;
    assert NamedAsParent(all, id);
    var i :| 0 <= i < |all| && all[i].parent == id;
    if i < |stops| {
      assert (stops + t)[i] == stops[i] == all[i];
      assert ParentResolved((stops + t)[i], stops + t, db);
    } else {
      var m := i - |stops|;
      assert all[i] == s[m];
      ClosureIsUnique(stops, s, t, db, m);
      var j :| 0 <= j < |t| && t[j].id == s[m].id;
      assert t[j] == s[m] && (stops + t)[|stops| + j] == t[j];
      assert ParentResolved((stops + t)[|stops| + j], stops + t, db);
    }
    HasRecordConcat(stops, t, id);
  }
}
