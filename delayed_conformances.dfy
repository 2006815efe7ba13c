/** The delayed-conformance ticket table of the importer session: the map
    `DelayedConformances` from ticket to a list of not-yet-verified
    conformances, and the counter `NextDelayedConformanceID` that hands out
    tickets. A ticket is allocated once and redeemed once. */
module DelayedConformances {
  import opened Handles

  type Conformances = seq<ProtocolConformance>

  datatype Table = Table(entries: map<uint32, Conformances>, nextId: uint32)

  /** The table as the session starts: no tickets, counter at 0. */
  const Initial: Table := Table(map[], 0)

  /** The keys an LLVM `DenseMap<unsigned, ...>` reserves for its own use: the
      empty key `~0U` and the tombstone key `~0U - 1`. Inserting either one
      fails the map's assertion. */
  const EMPTY_KEY: uint32 := UINT32_MAX
  const TOMBSTONE_KEY: uint32 := UINT32_MAX - 1

  predicate IsReservedKey(id: uint32)
  {
    id == EMPTY_KEY || id == TOMBSTONE_KEY
  }

  /** Every live ticket lies below the counter, and the counter has not
      passed the first reserved key. This holds from `Initial` on. */
  predicate Valid(t: Table)
  {
    && t.nextId <= TOMBSTONE_KEY
    && forall id :: id in t.entries ==> id < t.nextId
  }

  datatype Allocation = Allocation(table: Table, id: uint32)

  /** `allocateDelayedConformance`: the ticket is the old counter, the counter
      moves on by one, the list is stored under the ticket and every other
      entry is kept. The ticket must not be a key the map reserves, since
      storing it fails the map's assertion; so the counter never wraps. */
  function Allocate(t: Table, conformances: Conformances): (r: Allocation)
    requires !IsReservedKey(t.nextId)
    ensures r.id == t.nextId
    ensures r.table.nextId as int == t.nextId as int + 1
    ensures r.table.entries.Keys == t.entries.Keys + {r.id}
    ensures r.table.entries[r.id] == conformances
    ensures forall k :: k in t.entries && k != r.id ==> r.table.entries[k] == t.entries[k]
    ensures Valid(t) ==> r.id !in t.entries
    ensures Valid(t) ==> Valid(r.table)
  {
    Allocation(Table(t.entries[t.nextId := conformances], Increment(t.nextId)), t.nextId)
  }

  datatype Redemption = Redemption(table: Table, conformances: Conformances)

  /** `takeDelayedConformance`: the ticket must be live (the source dereferences
      the lookup unchecked). The stored list is returned and the ticket is
      gone, so it cannot be taken a second time; nothing else changes. */
  function Take(t: Table, id: uint32): (r: Redemption)
    requires id in t.entries
    ensures r.conformances == t.entries[id]
    ensures r.table.entries.Keys == t.entries.Keys - {id}
    ensures id !in r.table.entries
    ensures forall k :: k in r.table.entries ==> r.table.entries[k] == t.entries[k]
    ensures r.table.nextId == t.nextId
    ensures Valid(t) ==> Valid(r.table)
  {
    Redemption(Table(t.entries - {id}, t.nextId), t.entries[id])
  }

  /** Allocating one ticket after another and then redeeming the new one gives
      back exactly what was stored and leaves the other tickets as they were. */
  lemma AllocateThenTake(t: Table, conformances: Conformances)
    requires Valid(t) && !IsReservedKey(t.nextId)
    ensures var a := Allocate(t, conformances);
            var back := Take(a.table, a.id);
            back.conformances == conformances &&
            back.table.entries == t.entries &&
            a.id !in back.table.entries
  {
    var a := Allocate(t, conformances);
    var back := Take(a.table, a.id);
    assert back.table.entries.Keys == t.entries.Keys;
  }

  datatype Batch = Batch(table: Table, ids: seq<uint32>)

  /** Successive calls of `allocateDelayedConformance`, one per list. */
  function AllocateEach(t: Table, lists: seq<Conformances>): (r: Batch)
    requires t.nextId as int + |lists| <= TOMBSTONE_KEY as int
    decreases |lists|
  {
    if lists == [] then Batch(t, [])
    else
      var first := Allocate(t, lists[0]);
      var rest := AllocateEach(first.table, lists[1..]);
      Batch(rest.table, [first.id] + rest.ids)
  }

  /** Successive allocations hand out
      consecutive, hence distinct and strictly increasing, tickets; each list
      is stored under its own ticket, old tickets keep their lists, and the
      table stays valid. */
  lemma {:induction false} AllocateEachIssuesConsecutiveIds(t: Table, lists: seq<Conformances>)
    requires Valid(t)
    requires t.nextId as int + |lists| <= TOMBSTONE_KEY as int
    decreases |lists|
    ensures var r := AllocateEach(t, lists);
            && r.table.nextId as int == t.nextId as int + |lists|
            && |r.ids| == |lists|
            && (forall i :: 0 <= i < |lists| ==> r.ids[i] as int == t.nextId as int + i)
            && (forall i :: 0 <= i < |lists| ==> r.ids[i] in r.table.entries && r.table.entries[r.ids[i]] == lists[i])
            && (forall k :: k in r.table.entries <==> k in t.entries || t.nextId <= k < r.table.nextId)
            && (forall k :: k in t.entries ==> r.table.entries[k] == t.entries[k])
            && Valid(r.table)
  {
    if lists != [] {
      var first := Allocate(t, lists[0]);
      AllocateEachIssuesConsecutiveIds(first.table, lists[1..]);
      var rest := AllocateEach(first.table, lists[1..]);
      var r := AllocateEach(t, lists);
      assert r.ids == [first.id] + rest.ids;
      forall i | 0 <= i < |lists|
        ensures r.ids[i] in r.table.entries && r.table.entries[r.ids[i]] == lists[i]
      {
        if i > 0 {
          assert r.ids[i] == rest.ids[i - 1];
          assert lists[1..][i - 1] == lists[i];
        }
      }
    }
  }

  /** Tickets from successive allocations are pairwise distinct. */
  lemma AllocateEachIdsDistinct(t: Table, lists: seq<Conformances>)
    requires Valid(t)
    requires t.nextId as int + |lists| <= TOMBSTONE_KEY as int
    ensures var ids := AllocateEach(t, lists).ids;
            forall i, j :: 0 <= i < j < |ids| ==> ids[i] < ids[j]
  {
    AllocateEachIssuesConsecutiveIds(t, lists);
  }

  /** A redeemed ticket is not handed out again by later allocations, so a
      second redemption stays a precondition violation. */
  lemma TakenStaysTaken(t: Table, id: uint32, lists: seq<Conformances>)
    requires Valid(t) && id in t.entries
    requires t.nextId as int + |lists| <= TOMBSTONE_KEY as int
    ensures id !in AllocateEach(Take(t, id).table, lists).table.entries
  {
    AllocateEachIssuesConsecutiveIds(Take(t, id).table, lists);
  }

  /** From the start of the session, no allocation ever issues a reserved
      key and none is ever live; after TOMBSTONE_KEY allocations the counter
      stands at the tombstone key, where the next allocation fails the map's
      assertion instead of wrapping. */
  lemma {:induction false} ReservedKeysNeverIssued(lists: seq<Conformances>)
    requires |lists| <= TOMBSTONE_KEY as int
    ensures var r := AllocateEach(Initial, lists);
            && Valid(r.table)
            && (forall i :: 0 <= i < |r.ids| ==> !IsReservedKey(r.ids[i]))
            && EMPTY_KEY !in r.table.entries && TOMBSTONE_KEY !in r.table.entries
            && (|lists| == TOMBSTONE_KEY as int ==> IsReservedKey(r.table.nextId))
  {
    AllocateEachIssuesConsecutiveIds(Initial, lists);
  }
}
