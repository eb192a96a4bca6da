/** The record store of scripts/storage.js. The browser's `localStorage` entry under
    `STORAGE_KEY` is the field `blob` of a `RecordStore`; `JSON.parse` is folded into what a blob
    can be, and `setItem` is an assignment to the field that may fail (a quota error), which the
    caller states with `writeFails`. */
module Storage {
  import opened Seqs
  import opened Records
  import opened Validators

  /** What `localStorage.getItem(STORAGE_KEY)` can hold: nothing (or ""), text that `JSON.parse`
      rejects, JSON that is not an array, or an array of records. */
  datatype Blob = Absent | Unparsable | NotAnArray | RecordArray(records: seq<Record>)

  /** The `updatedData` of `updateRecord`: the fields it provides, each overriding the stored one. */
  datatype Patch = Patch(
    id: Option<string>,
    description: Option<string>,
    amount: Option<string>,
    category: Option<string>,
    date: Option<string>)

  const NoChange := Patch(None, None, None, None, None)

  function Override(current: string, given: Option<string>): string {
    if given.Some? then given.value else current
  }

  /** `{ ...r, ...p }`: a provided field replaces the record's, every other field is kept. */
  function Merge(r: Record, p: Patch): Record {
    Record(
      Override(r.id, p.id),
      Override(r.description, p.description),
      Override(r.amount, p.amount),
      Override(r.category, p.category),
      Override(r.date, p.date))
  }

  /** Applying `p` and then `q`, as one patch. */
  function Then(p: Patch, q: Patch): Patch {
    Patch(
      if q.id.Some? then q.id else p.id,
      if q.description.Some? then q.description else p.description,
      if q.amount.Some? then q.amount else p.amount,
      if q.category.Some? then q.category else p.category,
      if q.date.Some? then q.date else p.date)
  }

  /** The object the table's save-edit handler passes: the four edited fields, and no id. */
  function EditPatch(d: Record): Patch {
    Patch(None, Some(d.description), Some(d.amount), Some(d.category), Some(d.date))
  }

  lemma MergeNoChange(r: Record)
    ensures Merge(r, NoChange) == r
  {
  }

  lemma MergeThen(r: Record, p: Patch, q: Patch)
    ensures Merge(Merge(r, p), q) == Merge(r, Then(p, q))
  {
  }

  /** An edit keeps the record's id and takes every other field from the edit form. */
  lemma MergeEdit(r: Record, d: Record)
    ensures Merge(r, EditPatch(d)) == Record(r.id, d.description, d.amount, d.category, d.date)
  {
  }

  /** `records.findIndex(r => String(r.id) === String(id))`: the first index whose id matches. */
  function FindIndex(rs: seq<Record>, id: string): (r: Option<nat>)
    ensures r.None? <==> forall i :: 0 <= i < |rs| ==> rs[i].id != id
    ensures r.Some? ==> r.value < |rs| && rs[r.value].id == id
    ensures r.Some? ==> forall j :: 0 <= j < r.value ==> rs[j].id != id
  {
    if rs == [] then None
    else if rs[0].id == id then Some(0)
    else
      match FindIndex(rs[1..], id)
      case None => None
      case Some(k) => Some(k + 1)
  }

  /** The list `updateRecord` writes back: the first record with the id merged with `p`; `None`
      when no record has the id (nothing is written then). */
  function Updated(rs: seq<Record>, id: string, p: Patch): Option<seq<Record>> {
    match FindIndex(rs, id)
    case None => None
    case Some(i) => Some(rs[i := Merge(rs[i], p)])
  }

  function IdIsNot(id: string): Record -> bool {
    (r: Record) => r.id != id
  }

  /** `records.filter(r => String(r.id) !== String(id))`. */
  function WithoutId(rs: seq<Record>, id: string): seq<Record> {
    Filter(rs, IdIsNot(id))
  }

  /** What an update does: it fails exactly when no record has the id; otherwise the length stays,
      the first record with the id is merged with the patch, and every other record is untouched. */
  lemma UpdatedSpec(rs: seq<Record>, id: string, p: Patch)
    ensures Updated(rs, id, p).None? <==> forall i :: 0 <= i < |rs| ==> rs[i].id != id
    ensures Updated(rs, id, p).Some? ==>
      var us := Updated(rs, id, p).value;
      && |us| == |rs|
      && exists i :: FirstWithId(rs, id, i) && us[i] == Merge(rs[i], p)
                     && forall j :: 0 <= j < |rs| && j != i ==> us[j] == rs[j]
  {
    var k := FindIndex(rs, id);
    if k.Some? {
      assert FirstWithId(rs, id, k.value);
    }
  }

  /** `i` is the first index of a record with the id. */
  ghost predicate FirstWithId(rs: seq<Record>, id: string, i: int) {
    0 <= i < |rs| && rs[i].id == id && forall j :: 0 <= j < i ==> rs[j].id != id
  }

  /** After a delete no record has the id. */
  lemma DeleteRemovesId(rs: seq<Record>, id: string)
    ensures forall r :: r in WithoutId(rs, id) ==> r.id != id
  {
  }

  /** A delete keeps every record with another id, as many times as it occurred. */
  lemma DeleteKeepsOthers(rs: seq<Record>, id: string, r: Record)
    requires r.id != id
    ensures multiset(WithoutId(rs, id))[r] == multiset(rs)[r]
  {
    FilterCount(rs, IdIsNot(id), r);
  }

  /** Deleting an id no record has changes nothing. */
  lemma DeleteAbsentIsNoOp(rs: seq<Record>, id: string)
    requires forall i :: 0 <= i < |rs| ==> rs[i].id != id
    ensures WithoutId(rs, id) == rs
  {
    FilterKeepsAll(rs, IdIsNot(id));
  }

  /** Deleting twice is deleting once. */
  lemma DeleteIdempotent(rs: seq<Record>, id: string)
    ensures WithoutId(WithoutId(rs, id), id) == WithoutId(rs, id)
  {
    DeleteAbsentIsNoOp(WithoutId(rs, id), id);
  }

  /** Every record would pass `validateRecord`. */
  predicate AllValid(rs: seq<Record>) {
    forall i :: 0 <= i < |rs| ==> ValidateRecord(rs[i]) == Accepted
  }

  /** The form handler only saves a record that passed validation, so saving keeps every stored
      record valid. */
  lemma SaveKeepsValid(rs: seq<Record>, r: Record)
    requires AllValid(rs) && ValidateRecord(r) == Accepted
    ensures AllValid(rs + [r])
  {
    assert forall i :: 0 <= i < |rs| ==> (rs + [r])[i] == rs[i];
  }

  /** The table only applies an edit that passed validation, so updating keeps every stored record
      valid: the id is kept and the four checked fields come from the edit. */
  lemma UpdateKeepsValid(rs: seq<Record>, id: string, d: Record)
    requires AllValid(rs) && ValidateRecord(d) == Accepted
    ensures Updated(rs, id, EditPatch(d)).Some? ==> AllValid(Updated(rs, id, EditPatch(d)).value)
  {
    var k := FindIndex(rs, id);
    if k.Some? {
      var m := Merge(rs[k.value], EditPatch(d));
      assert forall f :: Passes(m, f) == Passes(d, f);
      assert ValidateRecord(m) == Accepted;
    }
  }

  lemma DeleteKeepsValid(rs: seq<Record>, id: string)
    requires AllValid(rs)
    ensures AllValid(WithoutId(rs, id))
  {
    var ws := WithoutId(rs, id);
    forall i | 0 <= i < |ws| ensures ValidateRecord(ws[i]) == Accepted {
      assert ws[i] in ws;
      FilterSubset(rs, IdIsNot(id));
      var j :| 0 <= j < |rs| && rs[j] == ws[i];
    }
  }

  class RecordStore {
    var blob: Blob

    constructor(initial: Blob)
      ensures blob == initial
    {
      blob := initial;
    }

    /** The list `getRecords` returns for the current blob. */
    function Records(): seq<Record>
      reads this
    {
      if blob.RecordArray? then blob.records else []
    }

    /** `getRecords`: the stored array, or [] when nothing is stored, the text does not parse or
        it is not an array. */
    method GetRecords() returns (rs: seq<Record>)
      ensures blob.RecordArray? ==> rs == blob.records
      ensures blob.Absent? || blob.Unparsable? || blob.NotAnArray? ==> rs == []
      ensures rs == Records()
    {
      match blob
      case Absent => rs := [];
      case Unparsable => rs := [];
      case NotAnArray => rs := [];
      case RecordArray(stored) => rs := stored;
    }

    /** `saveRecord`: appends the record, with no check for a duplicate id, and writes the list
        back; when the write fails it returns false and the blob stays as it was. */
    method SaveRecord(r: Record, writeFails: bool) returns (ok: bool)
      modifies this
      ensures ok == !writeFails
      ensures ok ==> blob == RecordArray(old(Records()) + [r])
      ensures !ok ==> blob == old(blob)
      ensures ok ==> Records()[..|old(Records())|] == old(Records()) && Records()[|old(Records())|] == r
      ensures old(AllValid(Records())) && ValidateRecord(r) == Accepted ==> AllValid(Records())
    {
      var records := GetRecords();
      if AllValid(records) && ValidateRecord(r) == Accepted {
        SaveKeepsValid(records, r);
      }
      records := records + [r];
      if writeFails {
        return false;
      }
      blob := RecordArray(records);
      assert records[..|records| - 1] == old(Records());
      return true;
    }

    /** `updateRecord`: merges the patch into the first record with the id and writes the list back,
        returning true; with no such record, or when the write fails, it returns false and the blob
        stays as it was. */
    method UpdateRecord(id: string, patch: Patch, writeFails: bool) returns (ok: bool)
      modifies this
      ensures Updated(old(Records()), id, patch).None? ==> !ok
      ensures Updated(old(Records()), id, patch).Some? ==> ok == !writeFails
      ensures ok ==> blob == RecordArray(Updated(old(Records()), id, patch).value)
      ensures !ok ==> blob == old(blob)
    {
      var records := GetRecords();
      var index := FindIndex(records, id);
      if index.Some? {
        records := records[index.value := Merge(records[index.value], patch)];
        if writeFails {
          return false;
        }
        blob := RecordArray(records);
        return true;
      }
      return false;
    }

    /** `deleteRecord`: keeps the records with another id, in order, and writes them back (an
        unreadable blob becomes an empty array); a failed write leaves the blob as it was. */
    method DeleteRecord(id: string, writeFails: bool)
      modifies this
      ensures writeFails ==> blob == old(blob)
      ensures !writeFails ==> blob == RecordArray(WithoutId(old(Records()), id))
      ensures !writeFails ==> forall i :: 0 <= i < |Records()| ==> Records()[i].id != id
    {
      var records := GetRecords();
      records := WithoutId(records, id);
      if !writeFails {
        blob := RecordArray(records);
      }
    }
  }
}
