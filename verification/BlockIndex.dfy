/** The block-trip index and the block layover index built during an import (gtfsdb/helpers.go). */
module BlockIndex {
  import opened Collections
  import opened GtfsFeed

  /* ---------- The trips of the index, by ID ---------- */

  datatype TripInfo = TripInfo(tripID: string, serviceID: string, blockID: string, layoverStopID: string)

  datatype GroupKey = GroupKey(serviceIDs: string, stopSequenceKey: string)

  /** The row of an index, and of a trip's entry in it; an entry names its index by its unique key. */
  datatype IndexRow = IndexRow(indexKey: string, serviceIDs: string, stopSequenceKey: string)
  datatype EntryRow = EntryRow(indexKey: string, tripID: string, blockID: string, serviceID: string, sequence: nat)

  function InfoOf(t: ScheduledTrip): TripInfo
    requires t.stopTimes != []
  {
    TripInfo(t.id, t.serviceID, t.blockID, t.stopTimes[0].stopID)
  }

  /** The trips with stop times, by ID; the last one with an ID wins. */
  function TripMap(trips: seq<ScheduledTrip>): map<string, TripInfo> {
    if trips == [] then map[]
    else
      var before, t := TripMap(trips[..|trips| - 1]), trips[|trips| - 1];
      if t.stopTimes == [] then before else before[t.id := InfoOf(t)]
  }

  ghost predicate Keyed(m: map<string, TripInfo>) {
    forall id :: id in m ==> m[id].tripID == id
  }

  lemma {:induction false} TripMapIsKeyed(trips: seq<ScheduledTrip>)
    ensures Keyed(TripMap(trips))
    ensures forall id :: id in TripMap(trips) <==> exists t :: t in trips && t.id == id && t.stopTimes != []
  {
    if trips != [] {
      var last := |trips| - 1;
      TripMapIsKeyed(trips[..last]);
      assert trips == trips[..last] + [trips[last]];
      forall id ensures id in TripMap(trips) <==> exists t :: t in trips && t.id == id && t.stopTimes != [] {
        if id in TripMap(trips[..last]) {
          var t :| t in trips[..last] && t.id == id && t.stopTimes != [];
          assert t in trips;
        }
      }
    }
  }

  method IndexTrips(trips: seq<ScheduledTrip>) returns (m: map<string, TripInfo>)
    ensures m == TripMap(trips)
  {
    m := map[];
    assert trips[..0] == [];
    for i := 0 to |trips|
      invariant m == TripMap(trips[..i])
    {
      assert trips[..i + 1][..i] == trips[..i];
      if trips[i].stopTimes == [] { continue; }
      m := m[trips[i].id := InfoOf(trips[i])];
    }
    assert trips[..|trips|] == trips;
  }

  /* ---------- Grouping by service and first stop ---------- */

  function KeyOf(info: TripInfo): GroupKey {
    GroupKey(info.serviceID, info.layoverStopID)
  }

  function IndexKey(k: GroupKey): string {
    k.serviceIDs + "|" + k.stopSequenceKey
  }

  ghost function GroupMembers(m: map<string, TripInfo>, done: set<string>, k: GroupKey): set<TripInfo> {
    set id | id in done && id in m && KeyOf(m[id]) == k :: m[id]
  }

  ghost predicate Lists(s: seq<TripInfo>, members: set<TripInfo>) {
    Distinct(s) && forall x :: x in s <==> x in members
  }

  ghost predicate GroupsOf(groups: map<GroupKey, seq<TripInfo>>, m: map<string, TripInfo>, done: set<string>) {
    && (forall k :: k in groups ==> groups[k] != [])
    && forall k :: Lists(Get(groups, k), GroupMembers(m, done, k))
  }

  lemma GroupsNext(groups: map<GroupKey, seq<TripInfo>>, m: map<string, TripInfo>, done: set<string>, id: string)
    requires Keyed(m) && GroupsOf(groups, m, done) && id in m && id !in done
    ensures GroupsOf(groups[KeyOf(m[id]) := Get(groups, KeyOf(m[id])) + [m[id]]], m, done + {id})
  {
    var key := KeyOf(m[id]);
    var next := groups[key := Get(groups, key) + [m[id]]];
    forall k ensures Lists(Get(next, k), GroupMembers(m, done + {id}, k)) {
      assert Lists(Get(groups, k), GroupMembers(m, done, k));
      if k == key {
        assert GroupMembers(m, done + {id}, k) == GroupMembers(m, done, k) + {m[id]};
      } else {
        assert GroupMembers(m, done + {id}, k) == GroupMembers(m, done, k);
      }
    }
  }

  /** Visits the trips in any order. */
  method GroupTrips(m: map<string, TripInfo>) returns (groups: map<GroupKey, seq<TripInfo>>)
    requires Keyed(m)
    ensures GroupsOf(groups, m, m.Keys)
  {
    groups := map[];
    var rest := m.Keys;
    while rest != {}
      invariant rest <= m.Keys
      invariant GroupsOf(groups, m, m.Keys - rest)
      decreases rest
    {
      var id :| id in rest;
      GroupsNext(groups, m, m.Keys - rest, id);
      assert m.Keys - rest + {id} == m.Keys - (rest - {id});
      rest := rest - {id};
      var key := KeyOf(m[id]);
      groups := groups[key := Get(groups, key) + [m[id]]];
    }
    assert m.Keys - rest == m.Keys;
  }

  /* ---------- Order within a group ---------- */

  predicate Before(a: TripInfo, b: TripInfo) {
    StrLess(a.blockID, b.blockID) || (a.blockID == b.blockID && StrLess(a.tripID, b.tripID))
  }

  lemma BeforeIsStrictOrder(a: TripInfo, b: TripInfo, c: TripInfo)
    ensures !Before(a, a)
    ensures Before(a, b) && Before(b, c) ==> Before(a, c)
    ensures a.tripID != b.tripID ==> Before(a, b) || Before(b, a)
  {
    StrLessIrreflexive(a.blockID);
    StrLessIrreflexive(a.tripID);
    if StrLess(a.blockID, b.blockID) && StrLess(b.blockID, c.blockID) {
      StrLessTransitive(a.blockID, b.blockID, c.blockID);
    }
    if StrLess(a.tripID, b.tripID) && StrLess(b.tripID, c.tripID) { StrLessTransitive(a.tripID, b.tripID, c.tripID); }
    StrLessTotal(a.blockID, b.blockID);
    StrLessTotal(a.tripID, b.tripID);
  }

  ghost predicate InOrder(s: seq<TripInfo>) {
    forall i, j :: 0 <= i < j < |s| ==> Before(s[i], s[j])
  }

  lemma InOrderIsDistinct(s: seq<TripInfo>)
    requires InOrder(s)
    ensures Distinct(s)
  {
    forall i, j | 0 <= i < j < |s| ensures s[i] != s[j] { BeforeIsStrictOrder(s[i], s[i], s[i]); }
  }

  lemma BeforeIsWeakOrder()
    ensures WeakOrder(Before)
  {
    StrLessIsWeakOrder();
    forall x, y | Before(x, y) ensures !Before(y, x) { BeforeIsStrictOrder(x, y, x); }
    forall x, y, z | !Before(y, x) && !Before(z, y) ensures !Before(z, x) {
      StrLessTotal(x.blockID, y.blockID);
      StrLessTotal(y.blockID, z.blockID);
      StrLessTotal(x.tripID, y.tripID);
      StrLessTotal(y.tripID, z.tripID);
    }
  }

  method SortTrips(trips: seq<TripInfo>) returns (r: seq<TripInfo>)
    requires forall i, j :: 0 <= i < j < |trips| ==> trips[i].tripID != trips[j].tripID
    ensures InOrder(r)
    ensures forall y :: y in r <==> y in trips
  {
    BeforeIsWeakOrder();
    r := Sort(Before, trips);
    PermutedDistinct(trips, r);
    forall i, j | 0 <= i < j < |r| ensures Before(r[i], r[j]) {
      assert r[i] in trips && r[j] in trips;
      BeforeIsStrictOrder(r[i], r[j], r[i]);
    }
  }

  /** A trip's sequence number: how many trips of its group come before it. */
  ghost function Rank(group: set<TripInfo>, x: TripInfo): nat {
    |set y | y in group && Before(y, x)|
  }

  lemma PositionIsRank(s: seq<TripInfo>, group: set<TripInfo>, i: nat)
    requires InOrder(s) && (forall x :: x in s <==> x in group) && i < |s|
    ensures Rank(group, s[i]) == i
  {
    var below := set y | y in group && Before(y, s[i]);
    InOrderIsDistinct(s);
    forall y ensures y in below <==> y in s[..i] {
      if y in below {
        var j :| 0 <= j < |s| && s[j] == y;
        BeforeIsStrictOrder(s[i], s[j], s[i]);
        assert j < i;
        assert s[..i][j] == y;
      }
      if y in s[..i] {
        var j :| 0 <= j < i && s[..i][j] == y;
        assert s[j] == y && y in s;
      }
    }
    DistinctSetSize(s[..i], below);
  }

  lemma {:induction false} DistinctSetSize<T(!new)>(s: seq<T>, whole: set<T>)
    requires Distinct(s)
    requires forall x :: x in s <==> x in whole
    ensures |s| == |whole|
  {
    if s == [] {
      assert whole == {};
    } else {
      forall x ensures x in s[1..] <==> x in whole - {s[0]} {
        if x in s && x != s[0] { assert s == [s[0]] + s[1..]; }
      }
      assert s[0] in whole;
      DistinctSetSize(s[1..], whole - {s[0]});
    }
  }

  /* ---------- The index tables ---------- */

  ghost function EntryFor(group: set<TripInfo>, x: TripInfo): EntryRow {
    EntryRow(IndexKey(KeyOf(x)), x.tripID, x.blockID, x.serviceID, Rank(group, x))
  }

  ghost function GroupEntries(group: set<TripInfo>): set<EntryRow> {
    set x | x in group :: EntryFor(group, x)
  }

  ghost function GroupOf(m: map<string, TripInfo>, id: string): set<TripInfo>
    requires id in m
  {
    GroupMembers(m, m.Keys, KeyOf(m[id]))
  }

  /** What the entry table holds: one row a trip, numbered within its group. */
  ghost function Entries(m: map<string, TripInfo>): set<EntryRow> {
    set id | id in m :: EntryFor(GroupOf(m, id), m[id])
  }

  function RowFor(k: GroupKey): IndexRow {
    IndexRow(IndexKey(k), k.serviceIDs, k.stopSequenceKey)
  }

  ghost function Indices(m: map<string, TripInfo>): set<IndexRow> {
    set id | id in m :: RowFor(KeyOf(m[id]))
  }

  /** Two groups whose keys read the same once joined by the separator. */
  ghost predicate KeysCollide(m: map<string, TripInfo>) {
    exists a, b :: a in m && b in m && KeyOf(m[a]) != KeyOf(m[b]) && IndexKey(KeyOf(m[a])) == IndexKey(KeyOf(m[b]))
  }

  lemma SamePlaceSameTrip(m: map<string, TripInfo>, s: seq<TripInfo>, k: GroupKey)
    requires Keyed(m) && Lists(s, GroupMembers(m, m.Keys, k))
    ensures forall i, j :: 0 <= i < j < |s| ==> s[i].tripID != s[j].tripID
  {
    forall i, j | 0 <= i < j < |s| ensures s[i].tripID != s[j].tripID {
      assert s[i] in s && s[j] in s;
      assert m[s[i].tripID] == s[i] && m[s[j].tripID] == s[j];
    }
  }

  ghost function EntriesAmong(group: set<TripInfo>, s: seq<TripInfo>): set<EntryRow> {
    set x | x in s :: EntryFor(group, x)
  }

  /** One group's entries: the trips sorted by block and trip ID, numbered from zero. */
  method InsertEntries(trips: seq<TripInfo>, ghost group: set<TripInfo>) returns (rows: set<EntryRow>)
    requires forall x :: x in trips <==> x in group
    requires forall i, j :: 0 <= i < j < |trips| ==> trips[i].tripID != trips[j].tripID
    ensures rows == GroupEntries(group)
  {
    var sorted := SortTrips(trips);
    rows := {};
    for sequence := 0 to |sorted|
      invariant rows == EntriesAmong(group, sorted[..sequence])
    {
      var trip := sorted[sequence];
      PositionIsRank(sorted, group, sequence);
      assert sorted[..sequence + 1] == sorted[..sequence] + [trip];
      assert EntriesAmong(group, sorted[..sequence] + [trip])
          == EntriesAmong(group, sorted[..sequence]) + {EntryFor(group, trip)};
      rows := rows + {EntryRow(IndexKey(KeyOf(trip)), trip.tripID, trip.blockID, trip.serviceID, sequence)};
    }
    assert sorted[..|sorted|] == sorted;
  }

  /** The tables once the groups with the given keys are written. */
  ghost predicate Written(indices: set<IndexRow>, entries: set<EntryRow>, m: map<string, TripInfo>,
                          done: set<GroupKey>)
  {
    && indices == (set k | k in done :: RowFor(k))
    && entries == set id | id in m && KeyOf(m[id]) in done :: EntryFor(GroupOf(m, id), m[id])
  }

  lemma WrittenNext(indices: set<IndexRow>, entries: set<EntryRow>, m: map<string, TripInfo>, done: set<GroupKey>,
                    k: GroupKey)
    requires Keyed(m) && Written(indices, entries, m, done)
    ensures Written(indices + {RowFor(k)}, entries + GroupEntries(GroupMembers(m, m.Keys, k)), m, done + {k})
  {
    var group := GroupMembers(m, m.Keys, k);
    var next := set id | id in m && KeyOf(m[id]) in done + {k} :: EntryFor(GroupOf(m, id), m[id]);
    forall row ensures row in next <==> row in entries || row in GroupEntries(group) {
      if row in GroupEntries(group) {
        var x :| x in group && row == EntryFor(group, x);
        assert m[x.tripID] == x && GroupOf(m, x.tripID) == group;
      }
      if row in next && row !in entries {
        var id :| id in m && KeyOf(m[id]) in done + {k} && row == EntryFor(GroupOf(m, id), m[id]);
        assert KeyOf(m[id]) == k && m[id] in group;
      }
    }
  }

  /** Writes the groups in any order; a repeated index key violates the table's UNIQUE constraint. */
  method InsertIndices(groups: map<GroupKey, seq<TripInfo>>, ghost m: map<string, TripInfo>)
    returns (ok: bool, indices: set<IndexRow>, entries: set<EntryRow>)
    requires Keyed(m) && GroupsOf(groups, m, m.Keys)
    ensures ok <==> !KeysCollide(m)
    ensures ok ==> indices == Indices(m) && entries == Entries(m)
  {
    indices, entries := {}, {};
    var used: set<string>, rest := {}, groups.Keys;
    GroupKeysAreUsed(groups, m);
    while rest != {}
      invariant rest <= groups.Keys
      invariant used == set k | k in groups.Keys - rest :: IndexKey(k)
      invariant forall k, l :: k in groups.Keys - rest && l in groups.Keys - rest && IndexKey(k) == IndexKey(l) ==>
                  k == l
      invariant Written(indices, entries, m, groups.Keys - rest)
      decreases rest
    {
      var k :| k in rest;
      if IndexKey(k) in used {
        var l :| l in groups.Keys - rest && IndexKey(l) == IndexKey(k);
        return false, indices, entries;
      }
      assert Lists(Get(groups, k), GroupMembers(m, m.Keys, k));
      SamePlaceSameTrip(m, groups[k], k);
      assert groups.Keys - rest + {k} == groups.Keys - (rest - {k});
      WrittenNext(indices, entries, m, groups.Keys - rest, k);
      rest := rest - {k};
      used := used + {IndexKey(k)};
      var rows := InsertEntries(groups[k], GroupMembers(m, m.Keys, k));
      indices := indices + {RowFor(k)};
      entries := entries + rows;
    }
    assert groups.Keys - rest == groups.Keys;
    ok := true;
  }

  lemma GroupKeysAreUsed(groups: map<GroupKey, seq<TripInfo>>, m: map<string, TripInfo>)
    requires Keyed(m) && GroupsOf(groups, m, m.Keys)
    ensures forall k :: k in groups <==> exists id :: id in m && KeyOf(m[id]) == k
  {
    forall k ensures k in groups <==> exists id :: id in m && KeyOf(m[id]) == k {
      assert Lists(Get(groups, k), GroupMembers(m, m.Keys, k));
      if k in groups {
        assert groups[k][0] in GroupMembers(m, m.Keys, k);
      }
      if id :| id in m && KeyOf(m[id]) == k {
        assert m[id] in GroupMembers(m, m.Keys, k);
      }
    }
  }

  /** The whole build succeeds exactly when no two groups read the same, and then the tables are a
      function of the trips, whatever order the maps were visited in. */
  method BuildBlockTripIndex(trips: seq<ScheduledTrip>)
    returns (ok: bool, indices: set<IndexRow>, entries: set<EntryRow>)
    ensures ok <==> !KeysCollide(TripMap(trips))
    ensures ok ==> indices == Indices(TripMap(trips)) && entries == Entries(TripMap(trips))
  {
    var m := IndexTrips(trips);
    TripMapIsKeyed(trips);
    var groups := GroupTrips(m);
    ok, indices, entries := InsertIndices(groups, m);
  }

  /* ---------- What the index promises ---------- */

  /** Every trip with stop times has exactly one entry, and no other trip has one. */
  lemma OneEntryPerTrip(trips: seq<ScheduledTrip>, id: string)
    ensures (exists row :: row in Entries(TripMap(trips)) && row.tripID == id)
            <==> exists t :: t in trips && t.id == id && t.stopTimes != []
    ensures forall a, b :: a in Entries(TripMap(trips)) && b in Entries(TripMap(trips)) && a.tripID == b.tripID ==>
              a == b
  {
    TripMapIsKeyed(trips);
    var m := TripMap(trips);
    if id in m { assert EntryFor(GroupOf(m, id), m[id]) in Entries(m); }
    forall row | row in Entries(m) ensures row.tripID in m && row == EntryFor(GroupOf(m, row.tripID), m[row.tripID]) { }
  }

  lemma EarlierHasLowerRank(group: set<TripInfo>, x: TripInfo, y: TripInfo)
    requires x in group && Before(x, y)
    ensures Rank(group, x) < Rank(group, y)
  {
    var belowX := set z | z in group && Before(z, x);
    var belowY := set z | z in group && Before(z, y);
    BeforeIsStrictOrder(x, x, x);
    forall z | z in belowX ensures z in belowY { BeforeIsStrictOrder(z, x, y); }
    assert x in belowY - belowX;
    ProperSubsetIsSmaller(belowX, belowY);
  }

  lemma ProperSubsetIsSmaller<T>(a: set<T>, b: set<T>)
    requires a < b
    ensures |a| < |b|
  {
    assert b == a + (b - a);
    assert b - a != {};
  }

  ghost function Image<T(!new)>(f: T -> int, s: set<T>): set<int> {
    set x | x in s :: f(x)
  }

  lemma {:induction false} ImageSize<T(!new)>(f: T -> int, s: set<T>)
    requires forall x, y :: x in s && y in s && x != y ==> f(x) != f(y)
    ensures |Image(f, s)| == |s|
  {
    if s != {} {
      var x :| x in s;
      ImageSize(f, s - {x});
      assert Image(f, s) == Image(f, s - {x}) + {f(x)};
    }
  }

  ghost function Below(n: nat): (r: set<int>)
    ensures |r| == n && forall i :: i in r <==> 0 <= i < n
  {
    if n == 0 then {} else Below(n - 1) + {n - 1}
  }

  lemma SubsetOfSameSize<T>(a: set<T>, b: set<T>)
    requires a <= b && |a| == |b|
    ensures a == b
  {
    if a != b { ProperSubsetIsSmaller(a, b); }
  }

  lemma RanksDiffer(m: map<string, TripInfo>, k: GroupKey, x: TripInfo, y: TripInfo)
    requires Keyed(m) && x in GroupMembers(m, m.Keys, k) && y in GroupMembers(m, m.Keys, k) && x != y
    ensures Rank(GroupMembers(m, m.Keys, k), x) != Rank(GroupMembers(m, m.Keys, k), y)
  {
    var group := GroupMembers(m, m.Keys, k);
    assert m[x.tripID] == x && m[y.tripID] == y;
    BeforeIsStrictOrder(x, y, x);
    if Before(x, y) { EarlierHasLowerRank(group, x, y); } else { EarlierHasLowerRank(group, y, x); }
  }

  lemma RankIsBelowSize(group: set<TripInfo>, x: TripInfo)
    requires x in group
    ensures Rank(group, x) < |group|
  {
    BeforeIsStrictOrder(x, x, x);
    ProperSubsetIsSmaller((set z | z in group && Before(z, x)), group);
  }

  ghost function RankIn(group: set<TripInfo>): TripInfo -> int {
    x => Rank(group, x)
  }

  /** The sequence numbers of a group of n trips are exactly 0 to n - 1, each used once. */
  lemma SequencesAreContiguous(m: map<string, TripInfo>, k: GroupKey)
    requires Keyed(m)
    ensures var group := GroupMembers(m, m.Keys, k);
      && (forall x, y :: x in group && y in group && x != y ==> Rank(group, x) != Rank(group, y))
      && forall n :: n in Below(|group|) <==> exists x :: x in group && Rank(group, x) == n
  {
    var group := GroupMembers(m, m.Keys, k);
    var ranks := Image(RankIn(group), group);
    forall x, y | x in group && y in group && x != y ensures Rank(group, x) != Rank(group, y) {
      RanksDiffer(m, k, x, y);
    }
    forall x | x in group ensures Rank(group, x) < |group| { RankIsBelowSize(group, x); }
    ImageSize(RankIn(group), group);
    SubsetOfSameSize(ranks, Below(|group|));
    assert forall n :: n in ranks <==> exists x :: x in group && Rank(group, x) == n;
  }

  /* ---------- The index in the trips' own fields ---------- */

  /** The trip has stop times, and no later one with stop times has its ID. */
  ghost predicate Indexed(trips: seq<ScheduledTrip>, i: int) {
    && 0 <= i < |trips| && trips[i].stopTimes != []
    && forall j :: i < j < |trips| && trips[j].stopTimes != [] ==> trips[j].id != trips[i].id
  }

  lemma {:induction false} IndexedIsMapped(trips: seq<ScheduledTrip>, i: nat)
    requires Indexed(trips, i)
    ensures trips[i].id in TripMap(trips) && TripMap(trips)[trips[i].id] == InfoOf(trips[i])
  {
    var last := |trips| - 1;
    if i < last {
      assert forall j :: 0 <= j < last ==> trips[..last][j] == trips[j];
      IndexedIsMapped(trips[..last], i);
    }
  }

  lemma {:induction false} MappedIsIndexed(trips: seq<ScheduledTrip>, id: string) returns (i: nat)
    requires id in TripMap(trips)
    ensures Indexed(trips, i) && trips[i].id == id && TripMap(trips)[id] == InfoOf(trips[i])
  {
    var last := |trips| - 1;
    if trips[last].stopTimes != [] && trips[last].id == id {
      i := last;
    } else {
      i := MappedIsIndexed(trips[..last], id);
      assert forall j :: 0 <= j < last ==> trips[..last][j] == trips[j];
    }
  }

  function FirstStop(t: ScheduledTrip): string {
    if t.stopTimes == [] then "" else t.stopTimes[0].stopID
  }

  /** The row is the entry of trip i, but for its sequence number. */
  ghost predicate IsEntryOf(row: EntryRow, trips: seq<ScheduledTrip>, i: int) {
    && Indexed(trips, i) && row.tripID == trips[i].id && row.blockID == trips[i].blockID
    && row.serviceID == trips[i].serviceID && row.indexKey == trips[i].serviceID + "|" + FirstStop(trips[i])
  }

  lemma EntryOfTrip(trips: seq<ScheduledTrip>, i: nat)
    requires Indexed(trips, i)
    ensures var m := TripMap(trips); trips[i].id in m && EntryFor(GroupOf(m, trips[i].id), m[trips[i].id]) in Entries(m)
    ensures var m := TripMap(trips); IsEntryOf(EntryFor(GroupOf(m, trips[i].id), m[trips[i].id]), trips, i)
  {
    IndexedIsMapped(trips, i);
  }

  lemma EntryHasTrip(trips: seq<ScheduledTrip>, row: EntryRow) returns (i: nat)
    requires row in Entries(TripMap(trips))
    ensures IsEntryOf(row, trips, i)
    ensures var m := TripMap(trips); trips[i].id in m && row == EntryFor(GroupOf(m, trips[i].id), m[trips[i].id])
  {
    var m := TripMap(trips);
    var id :| id in m && row == EntryFor(GroupOf(m, id), m[id]);
    i := MappedIsIndexed(trips, id);
  }

  /** Every entry carries the block and service of its trip, under the key of its service and first
      stop, and every indexed trip has one. */
  lemma EntriesAreTheTrips(trips: seq<ScheduledTrip>)
    ensures forall row :: row in Entries(TripMap(trips)) ==> exists i :: IsEntryOf(row, trips, i)
    ensures forall i :: Indexed(trips, i) ==> exists row :: row in Entries(TripMap(trips)) && IsEntryOf(row, trips, i)
  {
    forall row | row in Entries(TripMap(trips)) ensures exists i :: IsEntryOf(row, trips, i) {
      var i := EntryHasTrip(trips, row);
    }
    forall i | Indexed(trips, i) ensures exists row :: row in Entries(TripMap(trips)) && IsEntryOf(row, trips, i) {
      EntryOfTrip(trips, i);
    }
  }

  /** The trips run under one service from one first stop. */
  predicate OneGroup(a: ScheduledTrip, b: ScheduledTrip) {
    a.serviceID == b.serviceID && FirstStop(a) == FirstStop(b)
  }

  /** Within a group the entries are numbered by block ID and then by trip ID. */
  lemma EntryOrder(trips: seq<ScheduledTrip>, a: EntryRow, i: nat, b: EntryRow, j: nat)
    requires a in Entries(TripMap(trips)) && IsEntryOf(a, trips, i)
    requires b in Entries(TripMap(trips)) && IsEntryOf(b, trips, j)
    requires OneGroup(trips[i], trips[j])
    ensures a.sequence < b.sequence <==>
              StrLess(trips[i].blockID, trips[j].blockID)
              || (trips[i].blockID == trips[j].blockID && StrLess(trips[i].id, trips[j].id))
  {
    var m := TripMap(trips);
    TripMapIsKeyed(trips);
    var k := EntryHasTrip(trips, a);
    var l := EntryHasTrip(trips, b);
    IndexedIsMapped(trips, k);
    IndexedIsMapped(trips, l);
    IndexedIsMapped(trips, i);
    IndexedIsMapped(trips, j);
    var x, y, group := m[trips[i].id], m[trips[j].id], GroupOf(m, trips[i].id);
    assert x in group && y in group && GroupOf(m, trips[j].id) == group;
    BeforeIsStrictOrder(x, y, x);
    if Before(x, y) {
      EarlierHasLowerRank(group, x, y);
    } else if x != y {
      EarlierHasLowerRank(group, y, x);
    }
  }

  /** And without a gap: below each number of a group stands every smaller one. */
  lemma EntryNumbersFill(trips: seq<ScheduledTrip>, a: EntryRow, i: nat, n: nat)
    requires a in Entries(TripMap(trips)) && IsEntryOf(a, trips, i) && n < a.sequence
    ensures exists b, j :: b in Entries(TripMap(trips)) && IsEntryOf(b, trips, j) && OneGroup(trips[i], trips[j])
                           && b.sequence == n
  {
    var m := TripMap(trips);
    TripMapIsKeyed(trips);
    var k := EntryHasTrip(trips, a);
    IndexedIsMapped(trips, i);
    var key := KeyOf(m[trips[i].id]);
    var group := GroupMembers(m, m.Keys, key);
    assert m[trips[i].id] in group && a.sequence == Rank(group, m[trips[i].id]);
    SequencesAreContiguous(m, key);
    RankIsBelowSize(group, m[trips[i].id]);
    assert n in Below(|group|);
    var x :| x in group && Rank(group, x) == n;
    var j := MappedIsIndexed(trips, x.tripID);
    EntryOfTrip(trips, j);
    assert GroupOf(m, x.tripID) == group;
  }

  /** The index rows are the services and first stops of the indexed trips, each under its joined key. */
  lemma IndexRowsAreTheGroups(trips: seq<ScheduledTrip>, row: IndexRow)
    ensures row in Indices(TripMap(trips)) <==>
              exists i :: Indexed(trips, i) && row.serviceIDs == trips[i].serviceID
                          && row.stopSequenceKey == FirstStop(trips[i])
                          && row.indexKey == trips[i].serviceID + "|" + FirstStop(trips[i])
  {
    var m := TripMap(trips);
    if row in Indices(m) {
      var id :| id in m && row == RowFor(KeyOf(m[id]));
      var i := MappedIsIndexed(trips, id);
    }
    if i: int :| Indexed(trips, i) && row.serviceIDs == trips[i].serviceID && row.stopSequenceKey == FirstStop(trips[i])
                 && row.indexKey == trips[i].serviceID + "|" + FirstStop(trips[i]) {
      IndexedIsMapped(trips, i);
      assert row == RowFor(KeyOf(m[trips[i].id]));
    }
  }

  /** Two indexed trips of different groups have one joined key. */
  ghost predicate JoinedKeysCollide(trips: seq<ScheduledTrip>) {
    exists i, j :: Indexed(trips, i) && Indexed(trips, j) && !OneGroup(trips[i], trips[j])
                   && trips[i].serviceID + "|" + FirstStop(trips[i]) == trips[j].serviceID + "|" + FirstStop(trips[j])
  }

  lemma CollisionInTrips(trips: seq<ScheduledTrip>)
    ensures KeysCollide(TripMap(trips)) <==> JoinedKeysCollide(trips)
  {
    var m := TripMap(trips);
    if KeysCollide(m) {
      var a, b :| a in m && b in m && KeyOf(m[a]) != KeyOf(m[b]) && IndexKey(KeyOf(m[a])) == IndexKey(KeyOf(m[b]));
      var i := MappedIsIndexed(trips, a);
      var j := MappedIsIndexed(trips, b);
      assert !OneGroup(trips[i], trips[j]);
    }
    if i, j :| Indexed(trips, i) && Indexed(trips, j) && !OneGroup(trips[i], trips[j])
               && trips[i].serviceID + "|" + FirstStop(trips[i]) == trips[j].serviceID + "|" + FirstStop(trips[j]) {
      IndexedIsMapped(trips, i);
      IndexedIsMapped(trips, j);
    }
  }

  /** Without the separator in service IDs, no two groups read the same. */
  lemma PlainServiceIDsNeverCollide(m: map<string, TripInfo>)
    requires forall id :: id in m ==> '|' !in m[id].serviceID
    ensures !KeysCollide(m)
  {
    forall a, b | a in m && b in m && IndexKey(KeyOf(m[a])) == IndexKey(KeyOf(m[b]))
      ensures KeyOf(m[a]) == KeyOf(m[b])
    {
      SplitIsUnique(m[a].serviceID, m[a].layoverStopID, m[b].serviceID, m[b].layoverStopID);
    }
  }

  lemma SplitIsUnique(s: string, t: string, u: string, v: string)
    requires '|' !in s && '|' !in u && s + "|" + t == u + "|" + v
    ensures s == u && t == v
  {
    var whole := s + "|" + t;
    assert whole[|s|] == '|' && whole[|u|] == '|';
    assert forall i :: 0 <= i < |s| ==> whole[i] == s[i] != '|';
    assert forall i :: 0 <= i < |u| ==> whole[i] == (u + "|" + v)[i] == u[i] != '|';
    assert whole[..|s|] == s && whole[..|u|] == u;
    assert whole[|s| + 1..] == t && whole[|u| + 1..] == v;
  }

  /** With the separator in IDs two services can collide, and then the import fails. */
  lemma SeparatorInServiceIDCollides()
    ensures KeysCollide(TripMap([
      ScheduledTrip("t1", "r", "a|b", "", [StopTime("c", 1, 0, 0)], ""),
      ScheduledTrip("t2", "r", "a", "", [StopTime("b|c", 1, 0, 0)], "")]))
  {
    var t1 := ScheduledTrip("t1", "r", "a|b", "", [StopTime("c", 1, 0, 0)], "");
    var t2 := ScheduledTrip("t2", "r", "a", "", [StopTime("b|c", 1, 0, 0)], "");
    var m := TripMap([t1, t2]);
    assert [t1, t2][..1] == [t1] && [t1][..0] == [];
    assert TripMap([]) == map[] && TripMap([t1]) == map["t1" := InfoOf(t1)];
    assert m == TripMap([t1])["t2" := InfoOf(t2)];
    assert m["t1"] == InfoOf(t1) && m["t2"] == InfoOf(t2) && "t1" in m && "t2" in m;
    assert KeyOf(m["t1"]) != KeyOf(m["t2"]);
    assert IndexKey(KeyOf(m["t1"])) == "a|b|c" == IndexKey(KeyOf(m["t2"]));
  }

  /* ---------- Layovers ---------- */

  datatype BlockKey = BlockKey(blockID: string, serviceID: string)

  datatype Layover = Layover(
    blockID: string, serviceID: string, routeID: string, stopID: string, start: int, end: int, nextTripID: string)

  function BlockOf(t: ScheduledTrip): Option<BlockKey> {
    if t.blockID == "" || t.stopTimes == [] then None else Some(BlockKey(t.blockID, t.serviceID))
  }

  function FirstDeparture(t: ScheduledTrip): int {
    if t.stopTimes == [] then 0 else t.stopTimes[0].departure
  }

  /** The layover between two consecutive trips of a block, if they meet at a stop in time. */
  function LayoverBetween(key: BlockKey, current: ScheduledTrip, next: ScheduledTrip): Option<Layover>
    requires current.stopTimes != [] && next.stopTimes != []
  {
    var last, first := current.stopTimes[|current.stopTimes| - 1], next.stopTimes[0];
    if last.stopID != first.stopID || last.departure > first.arrival then None
    else Some(Layover(key.blockID, key.serviceID, next.routeID, last.stopID, last.departure, first.arrival, next.id))
  }

  ghost predicate AllRun(order: seq<ScheduledTrip>) {
    forall i :: 0 <= i < |order| ==> order[i].stopTimes != []
  }

  function Layovers(key: BlockKey, order: seq<ScheduledTrip>): seq<Layover>
    requires AllRun(order)
  {
    if |order| < 2 then []
    else
      var n := |order| - 1;
      var here := LayoverBetween(key, order[n - 1], order[n]);
      Layovers(key, order[..n]) + if here.Some? then [here.value] else []
  }

  function BlockTrips(trips: seq<ScheduledTrip>, key: BlockKey): (r: seq<ScheduledTrip>)
    ensures forall t :: t in r <==> t in trips && BlockOf(t) == Some(key)
    ensures AllRun(r)
  {
    var r := Filter(KeyedBy(BlockOf, key), trips);
    assert forall i :: 0 <= i < |r| ==> r[i] in r && BlockOf(r[i]) == Some(key);
    r
  }

  /** The trips of one block and service in order of first departure; ties in any order. */
  ghost predicate IsSchedule(order: seq<ScheduledTrip>, trips: seq<ScheduledTrip>, key: BlockKey) {
    && multiset(order) == multiset(BlockTrips(trips, key))
    && SortedBy(FirstDeparture, order)
  }

  lemma ScheduleRuns(order: seq<ScheduledTrip>, trips: seq<ScheduledTrip>, key: BlockKey)
    requires IsSchedule(order, trips, key)
    ensures forall t :: t in order ==> t in trips && BlockOf(t) == Some(key)
    ensures AllRun(order)
  {
    forall t | t in order ensures t in trips && BlockOf(t) == Some(key) {
      assert t in multiset(order);
      assert t in BlockTrips(trips, key);
    }
    forall i | 0 <= i < |order| ensures order[i].stopTimes != [] { assert order[i] in order; }
  }

  /** A schedule holds exactly the trips of its block and service that have stop times, and they leave
      their first stops in turn. */
  lemma ScheduleMeans(order: seq<ScheduledTrip>, trips: seq<ScheduledTrip>, key: BlockKey)
    requires IsSchedule(order, trips, key)
    ensures forall t :: multiset(order)[t]
                        == if t.blockID != "" && t.blockID == key.blockID && t.serviceID == key.serviceID
                              && t.stopTimes != [] then multiset(trips)[t] else 0
    ensures AllRun(order)
    ensures forall i, j :: 0 <= i < j < |order| ==>
              order[i].stopTimes[0].departure <= order[j].stopTimes[0].departure
  {
    ScheduleRuns(order, trips, key);
    forall t ensures multiset(order)[t]
                     == if t.blockID != "" && t.blockID == key.blockID && t.serviceID == key.serviceID
                           && t.stopTimes != [] then multiset(trips)[t] else 0
    {
      FilterCount(KeyedBy(BlockOf, key), trips, t);
    }
    forall i, j | 0 <= i < j < |order|
      ensures order[i].stopTimes[0].departure <= order[j].stopTimes[0].departure
    {
      assert FirstDeparture(order[i]) <= FirstDeparture(order[j]);
    }
  }

  method ScanBlock(key: BlockKey, order: seq<ScheduledTrip>) returns (rows: seq<Layover>)
    requires AllRun(order)
    ensures rows == Layovers(key, order)
  {
    rows := [];
    if |order| < 2 { return; }
    for i := 0 to |order| - 1
      invariant rows == Layovers(key, order[..i + 1])
    {
      assert order[..i + 2][..i + 1] == order[..i + 1];
      var last, first := order[i].stopTimes[|order[i].stopTimes| - 1], order[i + 1].stopTimes[0];
      if last.stopID != first.stopID { continue; }
      if last.departure > first.arrival { continue; }
      rows := rows + [Layover(key.blockID, key.serviceID, order[i + 1].routeID, last.stopID,
                              last.departure, first.arrival, order[i + 1].id)];
    }
    assert order[..|order|] == order;
  }

  function InBlock(key: BlockKey): Layover -> bool {
    (l: Layover) => l.blockID == key.blockID && l.serviceID == key.serviceID
  }

  /** The layover table holds, for every block and service, the layovers of one of its schedules. */
  ghost predicate HasLayovers(rows: seq<Layover>, trips: seq<ScheduledTrip>, key: BlockKey) {
    exists order :: IsSchedule(order, trips, key) && AllRun(order) && Filter(InBlock(key), rows) == Layovers(key, order)
  }

  ghost predicate IsLayoverIndex(rows: seq<Layover>, trips: seq<ScheduledTrip>) {
    forall key :: HasLayovers(rows, trips, key)
  }

  lemma {:induction false} LayoversAreOfBlock(key: BlockKey, order: seq<ScheduledTrip>)
    requires AllRun(order)
    ensures forall i :: 0 <= i < |Layovers(key, order)| ==> InBlock(key)(Layovers(key, order)[i])
  {
    if |order| >= 2 { LayoversAreOfBlock(key, order[..|order| - 1]); }
  }

  lemma AppendingBlock(rows: seq<Layover>, added: seq<Layover>, key: BlockKey, other: BlockKey)
    requires forall i :: 0 <= i < |added| ==> InBlock(key)(added[i])
    ensures Filter(InBlock(other), rows + added) == Filter(InBlock(other), rows) + if other == key then added else []
  {
    FilterConcat(InBlock(other), rows, added);
    if other == key { FilterAll(InBlock(other), added); } else { FilterNone(InBlock(other), added); }
  }

  /** Visits the blocks in any order, sorting and scanning each. */
  method BuildBlockLayoverIndex(trips: seq<ScheduledTrip>) returns (rows: seq<Layover>)
    ensures IsLayoverIndex(rows, trips)
  {
    var groups := GroupBy(BlockOf, trips);
    rows := [];
    var rest := groups.Keys;
    while rest != {}
      invariant rest <= groups.Keys
      invariant forall key :: key in groups.Keys - rest ==> HasLayovers(rows, trips, key)
      invariant forall key :: key !in groups.Keys - rest ==> Filter(InBlock(key), rows) == []
      decreases rest
    {
      var key :| key in rest;
      rest := rest - {key};
      GroupIsFilter(BlockOf, trips, key);
      var order := SortByKey(FirstDeparture, groups[key]);
      ScheduleRuns(order, trips, key);
      var added := ScanBlock(key, order);
      LayoversAreOfBlock(key, order);
      forall other
        ensures Filter(InBlock(other), rows + added)
                == Filter(InBlock(other), rows) + if other == key then added else []
      {
        AppendingBlock(rows, added, key, other);
      }
      ghost var was := rows;
      rows := rows + added;
      BlocksNext(was, rows, added, trips, key, order, groups.Keys - rest - {key});
    }
    forall key ensures HasLayovers(rows, trips, key) {
      if key !in groups { UnusedBlock(rows, trips, key); }
    }
  }

  lemma BlocksNext(was: seq<Layover>, rows: seq<Layover>, added: seq<Layover>, trips: seq<ScheduledTrip>, key: BlockKey,
                   order: seq<ScheduledTrip>, done: set<BlockKey>)
    requires forall other ::
               Filter(InBlock(other), rows) == Filter(InBlock(other), was) + if other == key then added else []
    requires forall other :: other in done ==> HasLayovers(was, trips, other)
    requires key !in done && Filter(InBlock(key), was) == []
    requires IsSchedule(order, trips, key) && AllRun(order) && added == Layovers(key, order)
    ensures forall other :: other in done + {key} ==> HasLayovers(rows, trips, other)
  {
    forall other | other in done + {key} ensures HasLayovers(rows, trips, other) {
      assert Filter(InBlock(other), rows) == Filter(InBlock(other), was) + if other == key then added else [];
      if other == key {
        assert Filter(InBlock(key), rows) == Layovers(key, order);
      } else {
        var o :| IsSchedule(o, trips, other) && AllRun(o) && Filter(InBlock(other), was) == Layovers(other, o);
        assert Filter(InBlock(other), rows) == Layovers(other, o);
      }
    }
  }

  lemma UnusedBlock(rows: seq<Layover>, trips: seq<ScheduledTrip>, key: BlockKey)
    requires key !in Grouped(BlockOf, trips) && Filter(InBlock(key), rows) == []
    ensures HasLayovers(rows, trips, key)
  {
    GroupIsFilter(BlockOf, trips, key);
    assert IsSchedule([], trips, key) && Layovers(key, []) == [];
  }

  /* ---------- The windows of a block do not overlap ---------- */

  ghost predicate WellTimed(t: ScheduledTrip) {
    t.stopTimes != [] && var first, last := t.stopTimes[0], t.stopTimes[|t.stopTimes| - 1];
    first.arrival <= first.departure <= last.departure
  }

  ghost predicate DisjointInOrder(rows: seq<Layover>) {
    && (forall i :: 0 <= i < |rows| ==> rows[i].start <= rows[i].end)
    && forall i, j :: 0 <= i < j < |rows| ==> rows[i].end <= rows[j].start
  }

  /** Along any schedule of well-timed trips the windows are well formed and disjoint, in order,
      even across the pairs that were skipped. */
  lemma {:induction false} LayoversAreDisjoint(key: BlockKey, order: seq<ScheduledTrip>)
    requires SortedBy(FirstDeparture, order) && AllRun(order)
    requires forall i :: 0 <= i < |order| ==> WellTimed(order[i])
    ensures DisjointInOrder(Layovers(key, order))
    ensures order != [] ==> forall i :: 0 <= i < |Layovers(key, order)| ==>
              Layovers(key, order)[i].end <= FirstDeparture(order[|order| - 1])
  {
    if |order| >= 2 {
      var n := |order| - 1;
      LayoversAreDisjoint(key, order[..n]);
      assert FirstDeparture(order[n - 1]) <= FirstDeparture(order[n]);
      assert WellTimed(order[n - 1]) && WellTimed(order[n]);
      assert order[..n][n - 1] == order[n - 1];
    }
  }

  /** So in the layover table, read block by block, no two windows of well-timed trips overlap. */
  lemma TableWindowsAreDisjoint(rows: seq<Layover>, trips: seq<ScheduledTrip>, key: BlockKey)
    requires IsLayoverIndex(rows, trips)
    requires forall t :: t in trips && BlockOf(t) == Some(key) ==> WellTimed(t)
    ensures DisjointInOrder(Filter(InBlock(key), rows))
  {
    assert HasLayovers(rows, trips, key);
    var order :| IsSchedule(order, trips, key) && AllRun(order) && Filter(InBlock(key), rows) == Layovers(key, order);
    ScheduleRuns(order, trips, key);
    forall i | 0 <= i < |order| ensures WellTimed(order[i]) { assert order[i] in order; }
    LayoversAreDisjoint(key, order);
  }

  /** Trip i of the order starts, in time, where the one before it ends: the window is from that
      trip's last departure to this one's first arrival. */
  ghost predicate IsMeeting(key: BlockKey, order: seq<ScheduledTrip>, i: int, l: Layover)
    requires AllRun(order)
  {
    0 < i < |order| &&
    var last, first := order[i - 1].stopTimes[|order[i - 1].stopTimes| - 1], order[i].stopTimes[0];
    && last.stopID == first.stopID && last.departure <= first.arrival
    && l.blockID == key.blockID && l.serviceID == key.serviceID && l.stopID == last.stopID
    && l.routeID == order[i].routeID && l.nextTripID == order[i].id
    && l.start == last.departure && l.end == first.arrival
  }

  lemma MeetingHasLayover(key: BlockKey, order: seq<ScheduledTrip>, i: int, l: Layover)
    requires AllRun(order) && 0 < i < |order|
    ensures IsMeeting(key, order, i, l) <==> LayoverBetween(key, order[i - 1], order[i]) == Some(l)
  {
  }

  /** A layover is recorded exactly for the consecutive trips that meet at a stop in time. */
  lemma {:induction false} LayoverForEachMeeting(key: BlockKey, order: seq<ScheduledTrip>, l: Layover)
    requires AllRun(order)
    ensures l in Layovers(key, order) <==> exists i :: IsMeeting(key, order, i, l)
  {
    if |order| >= 2 {
      var n := |order| - 1;
      LayoverForEachMeeting(key, order[..n], l);
      MeetingHasLayover(key, order, n, l);
      assert forall i :: IsMeeting(key, order[..n], i, l) <==> i < n && IsMeeting(key, order, i, l);
    }
  }

  /** Every layover row names a trip of the feed as the next trip of the block. */
  lemma LayoverNamesTrip(rows: seq<Layover>, trips: seq<ScheduledTrip>, l: Layover)
    requires IsLayoverIndex(rows, trips) && l in rows
    ensures exists t :: t in trips && t.id == l.nextTripID && BlockOf(t) == Some(BlockKey(l.blockID, l.serviceID))
  {
    var key := BlockKey(l.blockID, l.serviceID);
    assert HasLayovers(rows, trips, key);
    var order :| IsSchedule(order, trips, key) && AllRun(order) && Filter(InBlock(key), rows) == Layovers(key, order);
    assert l in Filter(InBlock(key), rows);
    var t := NextTripOf(key, order, l);
    ScheduleRuns(order, trips, key);
  }

  lemma NextTripOf(key: BlockKey, order: seq<ScheduledTrip>, l: Layover) returns (t: ScheduledTrip)
    requires AllRun(order) && l in Layovers(key, order)
    ensures t in order && t.id == l.nextTripID
  {
    LayoverForEachMeeting(key, order, l);
    var i :| IsMeeting(key, order, i, l);
    t := order[i];
  }

  /* ---------- Exactly when no window overlaps ---------- */

  /** The other trips of the block are well timed. */
  ghost predicate OthersWellTimed(trips: seq<ScheduledTrip>, t: ScheduledTrip, key: BlockKey) {
    forall x :: x in trips && x != t && BlockOf(x) == Some(key) ==> WellTimed(x)
  }

  /** Some layover table of these trips has overlapping windows in the block. */
  ghost predicate CanOverlap(trips: seq<ScheduledTrip>, key: BlockKey) {
    exists rows :: IsLayoverIndex(rows, trips) && !DisjointInOrder(Filter(InBlock(key), rows))
  }

  /** A trip that arrives before it departs never spoils the layovers of a block exactly when it does
      not leave its first stop after its last: whatever well-timed trips share its block. */
  lemma WellTimedIsExact(t: ScheduledTrip, key: BlockKey)
    requires BlockOf(t) == Some(key) && t.stopTimes[0].arrival <= t.stopTimes[0].departure
    ensures FirstDeparture(t) <= LastDeparture(t) <==>
              forall trips :: t in trips && OthersWellTimed(trips, t, key) ==> !CanOverlap(trips, key)
  {
    if FirstDeparture(t) <= LastDeparture(t) {
      forall trips, rows | t in trips && OthersWellTimed(trips, t, key) && IsLayoverIndex(rows, trips)
        ensures DisjointInOrder(Filter(InBlock(key), rows))
      {
        TableWindowsAreDisjoint(rows, trips, key);
      }
    } else {
      var trips := BackwardBlock(t, key);
      BackwardBlockOverlaps(t, key);
      assert OthersWellTimed(trips, t, key) && t == trips[2];
      assert CanOverlap(trips, key);
    }
  }

  function LastDeparture(t: ScheduledTrip): int {
    if t.stopTimes == [] then 0 else t.stopTimes[|t.stopTimes| - 1].departure
  }

  /** A trip of the block that calls at one stop. */
  function CallAt(key: BlockKey, id: string, stopID: string, time: int): ScheduledTrip {
    ScheduledTrip(id, "r", key.serviceID, key.blockID, [StopTime(stopID, 1, time, time)], "")
  }

  /** Two trips that meet elsewhere when t leaves its first stop, then t, then a trip from its last stop. */
  function BackwardBlock(t: ScheduledTrip, key: BlockKey): seq<ScheduledTrip>
    requires t.stopTimes != []
  {
    var first, last := t.stopTimes[0], t.stopTimes[|t.stopTimes| - 1];
    [CallAt(key, "o", first.stopID + "'", first.departure), CallAt(key, "p", first.stopID + "'", first.departure), t,
     CallAt(key, "n", last.stopID, first.departure)]
  }

  lemma BackwardBlockPairs(t: ScheduledTrip, key: BlockKey)
    requires t.stopTimes != [] && FirstDeparture(t) > LastDeparture(t)
    ensures var order, first, last := BackwardBlock(t, key), t.stopTimes[0], t.stopTimes[|t.stopTimes| - 1];
      && LayoverBetween(key, order[0], order[1])
         == Some(Layover(key.blockID, key.serviceID, "r", first.stopID + "'", first.departure, first.departure, "p"))
      && LayoverBetween(key, order[1], order[2]) == None
      && LayoverBetween(key, order[2], order[3])
         == Some(Layover(key.blockID, key.serviceID, "r", last.stopID, last.departure, first.departure, "n"))
  {
    assert |t.stopTimes[0].stopID + "'"| != |t.stopTimes[0].stopID|;
  }

  lemma BackwardBlockOverlaps(t: ScheduledTrip, key: BlockKey)
    requires BlockOf(t) == Some(key) && FirstDeparture(t) > LastDeparture(t)
    ensures CanOverlap(BackwardBlock(t, key), key)
  {
    var order, first, last := BackwardBlock(t, key), t.stopTimes[0], t.stopTimes[|t.stopTimes| - 1];
    var elsewhere := Layover(key.blockID, key.serviceID, "r", first.stopID + "'", first.departure, first.departure,
                             "p");
    var after := Layover(key.blockID, key.serviceID, "r", last.stopID, last.departure, first.departure, "n");
    BackwardBlockPairs(t, key);
    FourTripLayovers(key, order);
    var rows := Layovers(key, order);
    assert rows == [elsewhere, after];
    forall x | x in order ensures BlockOf(x) == Some(key) {
      assert x == order[0] || x == order[1] || x == order[2] || x == order[3];
    }
    BlockAlone(order, key);
    OneBlockIsTable(key, order);
    assert rows[0].end > rows[1].start;
  }

  lemma FourTripLayovers(key: BlockKey, order: seq<ScheduledTrip>)
    requires AllRun(order) && |order| == 4
    requires LayoverBetween(key, order[1], order[2]) == None
    ensures Layovers(key, order) == Contributed(LayoverBetween(key, order[0], order[1]))
            + Contributed(LayoverBetween(key, order[2], order[3]))
  {
    assert order[..3][..2] == order[..2] && order[..2][..1] == order[..1];
    assert Layovers(key, order[..1]) == [];
    assert Layovers(key, order[..2]) == [] + Contributed(LayoverBetween(key, order[0], order[1]));
    assert Layovers(key, order[..3]) == Layovers(key, order[..2]) + [];
  }

  function Contributed(l: Option<Layover>): seq<Layover> {
    if l.Some? then [l.value] else []
  }

  lemma BlockAlone(trips: seq<ScheduledTrip>, key: BlockKey)
    requires forall t :: t in trips ==> BlockOf(t) == Some(key)
    ensures BlockTrips(trips, key) == trips
    ensures forall other :: other != key ==> BlockTrips(trips, other) == []
  {
    FilterAll(KeyedBy(BlockOf, key), trips);
    forall other | other != key ensures BlockTrips(trips, other) == [] { FilterNone(KeyedBy(BlockOf, other), trips); }
  }

  /** Trips with one block of several trips, listed in order: its layovers are a layover table. */
  lemma OneBlockIsTable(key: BlockKey, trips: seq<ScheduledTrip>)
    requires SortedBy(FirstDeparture, BlockTrips(trips, key))
    requires forall other :: other != key ==> |BlockTrips(trips, other)| <= 1
    ensures IsLayoverIndex(Layovers(key, BlockTrips(trips, key)), trips)
    ensures Filter(InBlock(key), Layovers(key, BlockTrips(trips, key))) == Layovers(key, BlockTrips(trips, key))
  {
    var order := BlockTrips(trips, key);
    var rows := Layovers(key, order);
    LayoversAreOfBlock(key, order);
    FilterAll(InBlock(key), rows);
    assert IsSchedule(order, trips, key);
    assert HasLayovers(rows, trips, key);
    forall other | other != key ensures HasLayovers(rows, trips, other) {
      FilterNone(InBlock(other), rows);
      var alone := BlockTrips(trips, other);
      assert IsSchedule(alone, trips, other) && Layovers(other, alone) == [];
    }
  }

  /** The trips of a block that leave at different times have a single schedule, so a single set of rows. */
  lemma TableOfDistinctDepartures(rows: seq<Layover>, trips: seq<ScheduledTrip>, key: BlockKey)
    requires IsLayoverIndex(rows, trips) && SortedBy(FirstDeparture, BlockTrips(trips, key))
    requires forall i, j :: 0 <= i < j < |BlockTrips(trips, key)| ==>
               FirstDeparture(BlockTrips(trips, key)[i]) != FirstDeparture(BlockTrips(trips, key)[j])
    ensures Filter(InBlock(key), rows) == Layovers(key, BlockTrips(trips, key))
  {
    assert HasLayovers(rows, trips, key);
    var order :| IsSchedule(order, trips, key) && AllRun(order) && Filter(InBlock(key), rows) == Layovers(key, order);
    SortedPermutationUnique(FirstDeparture, BlockTrips(trips, key), order);
  }

  const BACKWARD := ScheduledTrip("t2", "r", "s", "b", [StopTime("x", 1, 10, 10), StopTime("y", 2, 2, 2)], "")

  function BackwardFeed(key: BlockKey): seq<ScheduledTrip> {
    [CallAt(key, "t1", "x", 0), BACKWARD, CallAt(key, "t3", "y", 20)]
  }

  lemma BackwardFeedLayovers(key: BlockKey)
    requires key == BlockKey("b", "s")
    ensures AllRun(BackwardFeed(key))
    ensures Layovers(key, BackwardFeed(key))
            == [Layover("b", "s", "r", "x", 0, 10, "t2")] + [Layover("b", "s", "r", "y", 2, 20, "t3")]
  {
    var trips := BackwardFeed(key);
    assert LayoverBetween(key, trips[0], trips[1]) == Some(Layover("b", "s", "r", "x", 0, 10, "t2"));
    assert LayoverBetween(key, trips[1], trips[2]) == Some(Layover("b", "s", "r", "y", 2, 20, "t3"));
    assert trips[..2][..1] == trips[..1] && Layovers(key, trips[..1]) == [];
    assert Layovers(key, trips[..2]) == [] + [Layover("b", "s", "r", "x", 0, 10, "t2")];
  }

  /** A feed with such a trip: every layover table built from it has two overlapping windows. */
  lemma BackwardTripOverlaps(rows: seq<Layover>, key: BlockKey)
    requires key == BlockKey("b", "s") && IsLayoverIndex(rows, BackwardFeed(key))
    ensures !DisjointInOrder(Filter(InBlock(key), rows))
  {
    var trips := BackwardFeed(key);
    forall t | t in trips ensures BlockOf(t) == Some(key) {
      assert t == trips[0] || t == trips[1] || t == trips[2];
    }
    BlockAlone(trips, key);
    TableOfDistinctDepartures(rows, trips, key);
    BackwardFeedLayovers(key);
    var windows := Filter(InBlock(key), rows);
    assert windows[0].end > windows[1].start;
  }
}
