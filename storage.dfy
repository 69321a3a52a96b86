/** The persisted collections the screens read and write through the storage
    helpers (getMedications, getDoseHistory, recordDose, deleteDose,
    updateMedication, addMedication). The helpers themselves are not part of
    this model; each is modelled as the plain update of a sequence that its
    name and its use describe. */
module Storage {
  import opened Js
  import opened Records

  /** deleteDose(id): every record with that id is dropped, the others keep
      their order. */
  function RemoveById(doses: seq<DoseRecord>, id: Id): (r: seq<DoseRecord>)
    ensures |r| <= |doses|
    ensures forall x :: x in r <==> x in doses && x.id != id
  {
    if doses == [] then []
    else if doses[0].id == id then RemoveById(doses[1..], id)
    else [doses[0]] + RemoveById(doses[1..], id)
  }

  lemma {:induction false} RemoveByIdAppend(a: seq<DoseRecord>, b: seq<DoseRecord>, id: Id)
    ensures RemoveById(a + b, id) == RemoveById(a, id) + RemoveById(b, id)
  {
    if a != [] {
      assert (a + b)[0] == a[0];
      assert (a + b)[1..] == a[1..] + b;
      RemoveByIdAppend(a[1..], b, id);
      if a[0].id != id {
        assert RemoveById(a + b, id) == [a[0]] + RemoveById(a[1..] + b, id);
        assert RemoveById(a, id) == [a[0]] + RemoveById(a[1..], id);
      }
    } else {
      assert a + b == b;
    }
  }

  /** Deleting an id that no record carries changes nothing. */
  lemma {:induction false} RemoveByIdAbsent(doses: seq<DoseRecord>, id: Id)
    requires forall k :: 0 <= k < |doses| ==> doses[k].id != id
    ensures RemoveById(doses, id) == doses
  {
    if doses != [] {
      RemoveByIdAbsent(doses[1..], id);
    }
  }

  /** With unique ids, deleting the id of the record at index i removes that
      record and no other. */
  lemma {:induction false} RemoveByIdUnique(doses: seq<DoseRecord>, i: int)
    requires UniqueDoseIds(doses)
    requires 0 <= i < |doses|
    ensures RemoveById(doses, doses[i].id) == doses[..i] + doses[i + 1..]
    ensures |RemoveById(doses, doses[i].id)| == |doses| - 1
  {
    var id := doses[i].id;
    assert doses == doses[..i] + ([doses[i]] + doses[i + 1..]);
    RemoveByIdAppend(doses[..i], [doses[i]] + doses[i + 1..], id);
    RemoveByIdAppend([doses[i]], doses[i + 1..], id);
    RemoveByIdAbsent(doses[..i], id);
    RemoveByIdAbsent(doses[i + 1..], id);
    assert RemoveById([doses[i]], id) == [];
  }

  /** medications.find(m => m.id === id): the first record with that id. */
  function FindById(meds: seq<Medication>, id: Id): (r: Option<Medication>)
    ensures r.None? <==> forall k :: 0 <= k < |meds| ==> meds[k].id != id
    ensures r.Some? ==> exists k :: 0 <= k < |meds| && meds[k] == r.value && r.value.id == id
                                    && forall j :: 0 <= j < k ==> meds[j].id != id
  {
    if meds == [] then None
    else if meds[0].id == id then Some(meds[0])
    else
      FindById(meds[1..], id)
  }

  /** updateMedication(m): the record with m's id is replaced by m, every
      other record and the order are kept. */
  function ReplaceById(meds: seq<Medication>, m: Medication): (r: seq<Medication>)
    ensures |r| == |meds|
    ensures forall k :: 0 <= k < |meds| ==> r[k] == if meds[k].id == m.id then m else meds[k]
  {
    if meds == [] then []
    else [if meds[0].id == m.id then m else meds[0]] + ReplaceById(meds[1..], m)
  }

  /** The two collections as the storage helpers hold them. */
  datatype Persisted = Persisted(medications: seq<Medication>, doses: seq<DoseRecord>)

  /** The store the screens talk to; its fields are replaced by each write. */
  class Store {
    var medications: seq<Medication>
    var doses: seq<DoseRecord>

    function State(): Persisted
      reads this
    {
      Persisted(medications, doses)
    }

    constructor (medications: seq<Medication>, doses: seq<DoseRecord>)
      ensures State() == Persisted(medications, doses)
    {
      this.medications := medications;
      this.doses := doses;
    }

    /** recordDose(medicationId, taken, timestamp): appends a record; the
        record's id is chosen by the helper and is a parameter here. */
    method RecordDose(medicationId: Id, taken: bool, timestamp: int, id: Id)
      modifies this
      ensures doses == old(doses) + [DoseRecord(id, medicationId, timestamp, taken)]
      ensures medications == old(medications)
    {
      doses := doses + [DoseRecord(id, medicationId, timestamp, taken)];
    }

    /** deleteDose(id) */
    method DeleteDose(id: Id)
      modifies this
      ensures doses == RemoveById(old(doses), id)
      ensures medications == old(medications)
    {
      doses := RemoveById(doses, id);
    }

    /** updateMedication(m) */
    method UpdateMedication(m: Medication)
      modifies this
      ensures medications == ReplaceById(old(medications), m)
      ensures doses == old(doses)
    {
      medications := ReplaceById(medications, m);
    }

    /** addMedication(m) */
    method AddMedication(m: Medication)
      modifies this
      ensures medications == old(medications) + [m]
      ensures doses == old(doses)
    {
      medications := medications + [m];
    }
  }
}
