/** The imported-protocols side table of the importer session: for a host
    declaration, the protocols recorded for it during import, kept until
    member loading takes them. */
module ImportedProtocols {
  import opened Handles

  type ProtocolTable = map<Decl, seq<ProtocolDecl>>

  /** A key is only ever created by recording a non-empty list, and taking it
      erases it, so no entry holds an empty list. */
  predicate Valid(m: ProtocolTable)
  {
    forall d :: d in m ==> m[d] != []
  }

  /** The protocols recorded for `decl`; none when it has no entry. */
  function Recorded(m: ProtocolTable, decl: Decl): seq<ProtocolDecl>
  {
    if decl in m then m[decl] else []
  }

  /** `recordImportedProtocols`: an empty list is ignored; otherwise the list
      is appended, in order, to what `decl` already has (its entry is created
      empty first when absent). Other declarations are not touched. */
  function Record(m: ProtocolTable, decl: Decl, protocols: seq<ProtocolDecl>): (r: ProtocolTable)
    ensures protocols == [] ==> r == m
    ensures Recorded(r, decl) == Recorded(m, decl) + protocols
    ensures protocols != [] ==> decl in r
    ensures forall d :: d != decl ==> (d in r <==> d in m)
    ensures forall d :: d in m && d != decl ==> r[d] == m[d]
    ensures Valid(m) ==> Valid(r)
  {
    if protocols == [] then m
    else m[decl := Recorded(m, decl) + protocols]
  }

  datatype Taken = Taken(table: ProtocolTable, protocols: seq<ProtocolDecl>)

  /** `takeImportedProtocols`: returns what was recorded for `decl` and erases
      its entry; an absent key yields an empty list and an unchanged table. */
  function Take(m: ProtocolTable, decl: Decl): (r: Taken)
    ensures r.protocols == Recorded(m, decl)
    ensures decl !in r.table
    ensures decl !in m ==> r.table == m
    ensures r.table.Keys == m.Keys - {decl}
    ensures forall d :: d in r.table ==> r.table[d] == m[d]
    ensures Valid(m) ==> Valid(r.table)
    ensures Valid(m) ==> (r.protocols == [] <==> decl !in m)
  {
    if decl in m then Taken(m - {decl}, m[decl]) else Taken(m, [])
  }

  /** Taking is idempotent after the first call: the second take yields
      nothing and changes nothing. */
  lemma TakeTwice(m: ProtocolTable, decl: Decl)
    ensures var first := Take(m, decl);
            Take(first.table, decl) == Taken(first.table, [])
  {
  }

  /** Recording for one declaration does not change what another one takes. */
  lemma RecordDoesNotDisturbOthers(m: ProtocolTable, decl: Decl, other: Decl, protocols: seq<ProtocolDecl>)
    requires other != decl
    ensures Take(Record(m, decl, protocols), other).protocols == Take(m, other).protocols
  {
  }

  /** The concatenation of a sequence of lists. */
  function Flatten(lists: seq<seq<ProtocolDecl>>): (r: seq<ProtocolDecl>)
    decreases |lists|
  {
    if lists == [] then [] else lists[0] + Flatten(lists[1..])
  }

  /** Successive calls of `recordImportedProtocols` for one declaration. */
  function RecordEach(m: ProtocolTable, decl: Decl, lists: seq<seq<ProtocolDecl>>): (r: ProtocolTable)
    decreases |lists|
  {
    if lists == [] then m else RecordEach(Record(m, decl, lists[0]), decl, lists[1..])
  }

  /** After any number of records for `decl`, taking it returns everything
      recorded, in the order recorded, after what it already had; the entry
      is then gone and the other declarations are as before. */
  lemma {:induction false} RecordEachThenTake(m: ProtocolTable, decl: Decl, lists: seq<seq<ProtocolDecl>>)
    decreases |lists|
    ensures var r := Take(RecordEach(m, decl, lists), decl);
            && r.protocols == Recorded(m, decl) + Flatten(lists)
            && r.table == Take(m, decl).table
  {
    if lists != [] {
      var m1 := Record(m, decl, lists[0]);
      RecordEachThenTake(m1, decl, lists[1..]);
      assert Flatten(lists) == lists[0] + Flatten(lists[1..]);
      assert Recorded(m1, decl) + Flatten(lists[1..])
          == Recorded(m, decl) + (lists[0] + Flatten(lists[1..]));
      TakeForgetsRecord(m, decl, lists[0]);
    }
  }

  /** Taking `decl` leaves the same table whether or not a list was recorded
      for it just before. */
  lemma TakeForgetsRecord(m: ProtocolTable, decl: Decl, protocols: seq<ProtocolDecl>)
    ensures Take(Record(m, decl, protocols), decl).table == Take(m, decl).table
  {
    var a := Take(Record(m, decl, protocols), decl).table;
    var b := Take(m, decl).table;
    assert a.Keys == b.Keys;
    assert forall d :: d in a ==> a[d] == b[d];
  }
}
