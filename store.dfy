/** App.tsx: the three handlers that replace the record list
    (handleSaveRecord, handleDeleteRecord, handleImport). Each builds a
    new array from the previous one, so each is a function on sequences. */
module Store {
  import opened Seqs
  import opened Types

  /** The ids present in the store (new Set(records.map(r => r.id))). */
  function Ids(records: seq<FuelRecord>): set<string>
  {
    set r | r in records :: r.id
  }

  /** prev.find(r => r.id === id) finds something. */
  predicate HasId(records: seq<FuelRecord>, id: string)
  {
    exists i :: 0 <= i < |records| && records[i].id == id
  }

  /** handleSaveRecord: replace every record with the same id (map), or append. */
  function SaveRecord(records: seq<FuelRecord>, record: FuelRecord): (r: seq<FuelRecord>)
    ensures HasId(records, record.id) ==> |r| == |records|
    ensures HasId(records, record.id) ==> forall i :: 0 <= i < |records| ==>
      (records[i].id == record.id ==> r[i] == record) && (records[i].id != record.id ==> r[i] == records[i])
    ensures !HasId(records, record.id) ==> |r| == |records| + 1 && r[..|records|] == records && r[|records|] == record
  {
    if HasId(records, record.id) then
      seq(|records|, i requires 0 <= i < |records| => if records[i].id == record.id then record else records[i])
    else records + [record]
  }

  /** The callback of handleDeleteRecord's filter. */
  function NotId(id: string): FuelRecord -> bool
  {
    (r: FuelRecord) => r.id != id
  }

  /** handleDeleteRecord: records.filter(r => r.id !== id). */
  function DeleteRecord(records: seq<FuelRecord>, id: string): (r: seq<FuelRecord>)
    ensures forall i :: 0 <= i < |r| ==> r[i].id != id && r[i] in records
    ensures forall i :: 0 <= i < |records| && records[i].id != id ==> records[i] in r
    ensures IsSubsequence(r, records)
    ensures forall x :: multiset(r)[x] == if x.id != id then multiset(records)[x] else 0
  {
    FilterIsSubsequence(records, NotId(id));
    FilterCount(records, NotId(id));
    FilterMembers(records, NotId(id));
    Filter(records, NotId(id))
  }

  /** The callback of handleImport's filter: the id is not among currentIds. */
  function IsNew(ids: set<string>): FuelRecord -> bool
  {
    (r: FuelRecord) => r.id !in ids
  }

  /** handleImport: [...records, ...imported.filter(r => !currentIds.has(r.id))]. */
  function Import(records: seq<FuelRecord>, imported: seq<FuelRecord>): seq<FuelRecord>
  {
    records + Filter(imported, IsNew(Ids(records)))
  }

  /** Saving keeps the other records, and afterwards the saved record is stored. */
  lemma SaveStoresRecord(records: seq<FuelRecord>, record: FuelRecord)
    ensures record in SaveRecord(records, record)
    ensures Ids(SaveRecord(records, record)) == Ids(records) + {record.id}
  {
    var r := SaveRecord(records, record);
    if HasId(records, record.id) {
      var k :| 0 <= k < |records| && records[k].id == record.id;
      assert r[k] == record;
      forall id | id in Ids(records) ensures id in Ids(r) {
        var x :| x in records && x.id == id;
        var i :| 0 <= i < |records| && records[i] == x;
        assert r[i].id == id;
      }
    } else {
      assert r[|records|] == record;
      forall id | id in Ids(records) ensures id in Ids(r) {
        var x :| x in records && x.id == id;
        var i :| 0 <= i < |records| && records[i] == x;
        assert r[i] == x;
      }
    }
  }

  /** Saving the same record twice is saving it once. */
  lemma SaveIdempotent(records: seq<FuelRecord>, record: FuelRecord)
    ensures SaveRecord(SaveRecord(records, record), record) == SaveRecord(records, record)
  {
    var r := SaveRecord(records, record);
    SaveStoresRecord(records, record);
    var k :| 0 <= k < |r| && r[k] == record;
    assert HasId(r, record.id);
  }

  /** Deleting after saving removes the record whatever the save did: an
      edit followed by a delete leaves what a delete alone leaves. */
  lemma {:induction false} DeleteAfterSave(records: seq<FuelRecord>, record: FuelRecord)
    ensures DeleteRecord(SaveRecord(records, record), record.id) == DeleteRecord(records, record.id)
  {
    var p := NotId(record.id);
    if HasId(records, record.id) {
      SameFilterAfterReplace(records, record);
    } else {
      FilterSnoc(records, record, p);
    }
  }

  lemma {:induction false} SameFilterAfterReplace(records: seq<FuelRecord>, record: FuelRecord)
    ensures Filter(seq(|records|, i requires 0 <= i < |records| => if records[i].id == record.id then record else records[i]), NotId(record.id))
         == Filter(records, NotId(record.id))
  {
    var r := seq(|records|, i requires 0 <= i < |records| => if records[i].id == record.id then record else records[i]);
    if records != [] {
      SameFilterAfterReplace(records[1..], record);
      var r' := seq(|records[1..]|, i requires 0 <= i < |records[1..]| => if records[1..][i].id == record.id then record else records[1..][i]);
      assert r[1..] == r';
    }
  }

  /** Deleting an id that is not stored changes nothing. */
  lemma DeleteAbsent(records: seq<FuelRecord>, id: string)
    requires !HasId(records, id)
    ensures DeleteRecord(records, id) == records
  {
    FilterKeepsAll(records, NotId(id));
  }

  /** Import keeps the store as it was in front and appends exactly the
      imported records whose id the store does not already hold, in their
      payload order; existing records are never overwritten. */
  lemma ImportSpec(records: seq<FuelRecord>, imported: seq<FuelRecord>)
    ensures Import(records, imported)[..|records|] == records
    ensures forall i :: |records| <= i < |Import(records, imported)| ==>
      Import(records, imported)[i] in imported && Import(records, imported)[i].id !in Ids(records)
    ensures forall i :: 0 <= i < |imported| && imported[i].id !in Ids(records) ==>
      imported[i] in Import(records, imported)[|records|..]
    ensures IsSubsequence(Import(records, imported)[|records|..], imported)
    ensures forall x ::
              multiset(Import(records, imported)[|records|..])[x] == if x.id !in Ids(records) then multiset(imported)[x] else 0
  {
    var added := Filter(imported, IsNew(Ids(records)));
    assert Import(records, imported)[|records|..] == added;
    FilterIsSubsequence(imported, IsNew(Ids(records)));
    FilterMembers(imported, IsNew(Ids(records)));
    FilterCount(imported, IsNew(Ids(records)));
  }

  /** Importing the same payload a second time adds nothing. */
  lemma ImportIdempotent(records: seq<FuelRecord>, imported: seq<FuelRecord>)
    ensures Import(Import(records, imported), imported) == Import(records, imported)
  {
    var once := Import(records, imported);
    ImportSpec(records, imported);
    forall i | 0 <= i < |imported| ensures !IsNew(Ids(once))(imported[i]) {
      var x := imported[i];
      if x.id in Ids(records) {
        var y :| y in records && y.id == x.id;
        var j :| 0 <= j < |records| && records[j] == y;
        assert once[j] == y;
      } else {
        assert x in once[|records|..];
      }
    }
    FilterKeepsNone(imported, IsNew(Ids(once)));
    assert once + [] == once;
  }

  /** The payload is not de-duplicated: two payload records that share an
      id new to the store are both appended. */
  lemma ImportKeepsPayloadDuplicates(records: seq<FuelRecord>, a: FuelRecord, b: FuelRecord)
    requires a.id == b.id && a.id !in Ids(records)
    ensures Import(records, [a, b]) == records + [a, b]
  {
    assert [a, b] == [a] + [b];
    FilterAppend([a], [b], IsNew(Ids(records)));
    FilterSingle(a, IsNew(Ids(records)));
    FilterSingle(b, IsNew(Ids(records)));
  }

  /** The import example: store [a], payload [a with another odometer, b]
      gives [a (unchanged), b]. */
  lemma ImportCollisionExample(a: FuelRecord, a': FuelRecord, b: FuelRecord)
    requires a.id == "a" && a'.id == "a" && b.id == "b"
    ensures Import([a], [a', b]) == [a, b]
  {
    assert Ids([a]) == {"a"};
    assert [a', b] == [a'] + [b];
    FilterAppend([a'], [b], IsNew(Ids([a])));
    FilterSingle(a', IsNew(Ids([a])));
    FilterSingle(b, IsNew(Ids([a])));
  }
}
