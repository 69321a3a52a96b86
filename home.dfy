/** The dose rules of the home screen (app/home.tsx): whether a medication's
    dose is taken today, the completed count and the daily progress, taking a
    dose, undoing the latest one, and the tap that chooses between the two. */
module Home {
  import opened Js
  import opened Records
  import opened Storage
  import opened Schedule

  /** A taken dose of the given medication. */
  predicate TakenFor(d: DoseRecord, medicationId: Id) {
    d.medicationId == medicationId && d.taken
  }

  /** isDoseTaken: doseHistory.some(dose => dose.medicationId === id && dose.taken) */
  function IsDoseTaken(doses: seq<DoseRecord>, medicationId: Id): (r: bool)
    ensures r <==> exists k :: 0 <= k < |doses| && TakenFor(doses[k], medicationId)
  {
    if doses == [] then false
    else TakenFor(doses[0], medicationId) || (assert doses == [doses[0]] + doses[1..]; IsDoseTaken(doses[1..], medicationId))
  }

  /** todaysDoses.filter(dose => dose.taken).length */
  function CompletedCount(doses: seq<DoseRecord>): (n: nat)
    ensures n <= |doses|
  {
    if doses == [] then 0 else (if doses[0].taken then 1 else 0) + CompletedCount(doses[1..])
  }

  lemma {:induction false} CompletedCountAppend(a: seq<DoseRecord>, b: seq<DoseRecord>)
    ensures CompletedCount(a + b) == CompletedCount(a) + CompletedCount(b)
  {
    if a == [] {
      assert a + b == b;
    } else {
      assert (a + b)[0] == a[0];
      assert (a + b)[1..] == a[1..] + b;
      CompletedCountAppend(a[1..], b);
    }
  }

  /** The completed count is the number of taken records: zero exactly when
      no record is taken, and the whole history when every record is. */
  lemma {:induction false} CompletedCountBounds(doses: seq<DoseRecord>)
    ensures CompletedCount(doses) == 0 <==> forall k :: 0 <= k < |doses| ==> !doses[k].taken
    ensures CompletedCount(doses) == |doses| <==> forall k :: 0 <= k < |doses| ==> doses[k].taken
  {
    if doses != [] {
      CompletedCountBounds(doses[1..]);
      assert forall k :: 1 <= k < |doses| ==> doses[k] == doses[1..][k - 1];
    }
  }

  /** A fraction num / den. */
  datatype Ratio = Ratio(num: int, den: int)

  /** progress: completed / (active * 2), or 0 with no active medication. */
  function Progress(activeCount: nat, completed: nat): (r: Ratio)
    ensures r.den > 0 && r.num >= 0
  {
    if activeCount > 0 then Ratio(completed, activeCount * 2) else Ratio(0, 1)
  }

  /** The progress the home screen shows after loadMedications. */
  function TodaysProgress(meds: seq<Medication>, todaysDoses: seq<DoseRecord>, today: int): (r: Ratio)
    ensures r.den > 0
  {
    Progress(|TodaysMedications(meds, today)|, CompletedCount(todaysDoses))
  }

  /** Two active medications and three taken doses give 3/4. */
  lemma ProgressScenario()
    ensures Progress(2, 3) == Ratio(3, 4)
  {
  }

  /** With nothing active today the progress is 0, whatever was taken. */
  lemma NoActiveMedicationNoProgress(meds: seq<Medication>, todaysDoses: seq<DoseRecord>, today: int)
    requires forall k :: 0 <= k < |meds| ==> !IsActiveToday(meds[k], today)
    ensures TodaysProgress(meds, todaysDoses, today).num == 0
  {
    NoneActiveEmptyList(meds, today);
  }

  lemma {:induction false} NoneActiveEmptyList(meds: seq<Medication>, today: int)
    requires forall k :: 0 <= k < |meds| ==> !IsActiveToday(meds[k], today)
    ensures TodaysMedications(meds, today) == []
  {
    if meds != [] {
      assert !IsActiveToday(meds[0], today);
      NoneActiveEmptyList(meds[1..], today);
    }
  }

  /** Any taken record of today counts toward the progress, also one of a
      medication that is not active today, so the fraction is not capped at
      one: each further taken record raises the numerator by one. */
  lemma {:induction false} EveryTakenRecordCounts(meds: seq<Medication>, todaysDoses: seq<DoseRecord>, today: int, extra: DoseRecord)
    requires TodaysMedications(meds, today) != []
    requires extra.taken
    ensures TodaysProgress(meds, todaysDoses + [extra], today).num == TodaysProgress(meds, todaysDoses, today).num + 1
    ensures TodaysProgress(meds, todaysDoses + [extra], today).den == TodaysProgress(meds, todaysDoses, today).den
  {
    CompletedCountAppend(todaysDoses, [extra]);
    assert CompletedCount([extra]) == 1;
  }

  /** One active medication and three taken records show 3/2, above one. */
  lemma ProgressNotCapped()
    ensures Progress(1, 3).num > Progress(1, 3).den
  {
  }

  /** dosesForMed.sort((a, b) => b.timestamp - a.timestamp)[0]: the array
      sort is stable, so among taken records of the medication with the
      greatest timestamp the first one in history order is chosen. */
  function LatestTakenDose(doses: seq<DoseRecord>, medicationId: Id): (r: Option<DoseRecord>)
    ensures r.None? <==> !IsDoseTaken(doses, medicationId)
    ensures r.Some? ==> r.value in doses && TakenFor(r.value, medicationId)
  {
    if doses == [] then None
    else
      var rest := LatestTakenDose(doses[1..], medicationId);
      if !TakenFor(doses[0], medicationId) then rest
      else if rest.Some? && rest.value.timestamp > doses[0].timestamp then rest
      else Some(doses[0])
  }

  /** The latest taken dose exists exactly when a dose is taken; it is a
      taken record of the medication, no such record is later, and each one
      before it in history order is strictly earlier. */
  lemma {:induction false} LatestTakenDoseSpec(doses: seq<DoseRecord>, medicationId: Id)
    ensures LatestTakenDose(doses, medicationId).None? <==> !IsDoseTaken(doses, medicationId)
    ensures var r := LatestTakenDose(doses, medicationId);
      r.Some? ==> exists k :: 0 <= k < |doses| && doses[k] == r.value && TakenFor(r.value, medicationId)
                              && forall j :: 0 <= j < k && TakenFor(doses[j], medicationId) ==> doses[j].timestamp < r.value.timestamp
    ensures var r := LatestTakenDose(doses, medicationId);
      r.Some? ==> forall j :: 0 <= j < |doses| && TakenFor(doses[j], medicationId) ==> doses[j].timestamp <= r.value.timestamp
  {
    if doses != [] {
      var tail := doses[1..];
      LatestTakenDoseSpec(tail, medicationId);
      var rest := LatestTakenDose(tail, medicationId);
      var r := LatestTakenDose(doses, medicationId);
      assert forall j :: 1 <= j < |doses| ==> doses[j] == tail[j - 1];
      if r.Some? {
        if r == rest && (!TakenFor(doses[0], medicationId) || rest.value.timestamp > doses[0].timestamp) {
          var k :| 0 <= k < |tail| && tail[k] == rest.value && TakenFor(rest.value, medicationId)
                   && forall j :: 0 <= j < k && TakenFor(tail[j], medicationId) ==> tail[j].timestamp < rest.value.timestamp;
          assert doses[k + 1] == r.value;
          assert forall j :: 0 <= j < k + 1 && TakenFor(doses[j], medicationId) ==> doses[j].timestamp < r.value.timestamp by {
            forall j | 0 <= j < k + 1 && TakenFor(doses[j], medicationId) ensures doses[j].timestamp < r.value.timestamp {
              if j > 0 { assert doses[j] == tail[j - 1]; }
            }
          }
        } else {
          assert r == Some(doses[0]);
        }
      }
    }
  }

  /** Undo restores one unit: Math.min(currentSupply + 1, totalSupply). */
  function RestoreSupply(m: Medication): (r: Medication)
    ensures r.(currentSupply := m.currentSupply) == m
    ensures SupplyInBounds(m) ==> SupplyInBounds(r)
  {
    m.(currentSupply := Min(Add(m.currentSupply, 1), m.totalSupply))
  }

  /** The restored supply is one more than before, capped at the total; it is
      unchanged when already full, it keeps the supply invariant, NaN stays
      NaN, and no other field is written. */
  lemma RestoreSupplyCapped(m: Medication)
    ensures RestoreSupply(m).(currentSupply := m.currentSupply) == m
    ensures m.currentSupply.Int? && m.totalSupply.Int? ==>
      RestoreSupply(m).currentSupply == Int(if m.currentSupply.value + 1 <= m.totalSupply.value
                                            then m.currentSupply.value + 1 else m.totalSupply.value)
    ensures m.currentSupply.NaN? || m.totalSupply.NaN? ==> RestoreSupply(m).currentSupply.NaN?
    ensures SupplyInBounds(m) ==> SupplyInBounds(RestoreSupply(m))
    ensures SupplyInBounds(m) && m.currentSupply == m.totalSupply ==> RestoreSupply(m) == m
  {
  }

  /** handleTakeDose: recordDose(medication.id, true, now). The supply is
      not touched here. */
  function AfterTake(s: Persisted, medicationId: Id, now: int, newId: Id): (r: Persisted)
    ensures r.medications == s.medications && |r.doses| == |s.doses| + 1
    ensures r.doses[..|s.doses|] == s.doses && TakenFor(r.doses[|s.doses|], medicationId)
    ensures IsDoseTaken(r.doses, medicationId)
  {
    Persisted(s.medications, s.doses + [DoseRecord(newId, medicationId, now, true)])
  }

  /** handleUndoDose on the confirmed path: nothing happens without a taken
      dose in the screen's history; otherwise the latest taken dose is
      deleted, and the medication read back from the store gets one unit
      back, capped at its total. */
  function AfterUndo(s: Persisted, doseHistory: seq<DoseRecord>, medicationId: Id): (r: Persisted)
    ensures !IsDoseTaken(doseHistory, medicationId) ==> r == s
    ensures |r.doses| <= |s.doses| && forall x :: x in r.doses ==> x in s.doses
    ensures |r.medications| == |s.medications|
    ensures AllSupplyInBounds(s.medications) ==> AllSupplyInBounds(r.medications)
  {
    match LatestTakenDose(doseHistory, medicationId)
    case None => s
    case Some(latest) =>
      var doses := RemoveById(s.doses, latest.id);
      match FindById(s.medications, medicationId)
      case None => Persisted(s.medications, doses)
      case Some(m) => Persisted(ReplaceById(s.medications, RestoreSupply(m)), doses)
  }

  /** The dose card's onPress: take when not taken, undo when taken. */
  function AfterTap(s: Persisted, doseHistory: seq<DoseRecord>, medication: Medication, now: int, newId: Id): (r: Persisted)
    ensures !IsDoseTaken(doseHistory, medication.id) ==> r.medications == s.medications && |r.doses| == |s.doses| + 1
    ensures IsDoseTaken(doseHistory, medication.id) ==> |r.doses| <= |s.doses|
    ensures AllSupplyInBounds(s.medications) ==> AllSupplyInBounds(r.medications)
  {
    if !IsDoseTaken(doseHistory, medication.id) then AfterTake(s, medication.id, now, newId)
    else AfterUndo(s, doseHistory, medication.id)
  }

  method HandleTakeDose(store: Store, medication: Medication, now: int, newId: Id)
    modifies store
    ensures store.State() == AfterTake(old(store.State()), medication.id, now, newId)
  {
    store.RecordDose(medication.id, true, now, newId);
  }

  method HandleUndoDose(store: Store, doseHistory: seq<DoseRecord>, medication: Medication)
    modifies store
    ensures store.State() == AfterUndo(old(store.State()), doseHistory, medication.id)
  {
    var latestDose := LatestTakenDose(doseHistory, medication.id);
    if latestDose.None? {
      return;
    }
    store.DeleteDose(latestDose.value.id);
    var medications := store.medications;
    var updatedMed := FindById(medications, medication.id);
    if updatedMed.Some? {
      store.UpdateMedication(RestoreSupply(updatedMed.value));
    }
  }

  method PressDoseCard(store: Store, doseHistory: seq<DoseRecord>, medication: Medication, now: int, newId: Id)
    modifies store
    ensures store.State() == AfterTap(old(store.State()), doseHistory, medication, now, newId)
  {
    var taken := IsDoseTaken(doseHistory, medication.id);
    if !taken {
      HandleTakeDose(store, medication, now, newId);
    } else {
      HandleUndoDose(store, doseHistory, medication);
    }
  }

  /** Undo without a taken dose of the medication in the history changes
      nothing: no record is deleted and no supply is written. */
  lemma {:induction false} UndoWithoutTakenDoseIsNoop(s: Persisted, doseHistory: seq<DoseRecord>, medicationId: Id)
    requires !IsDoseTaken(doseHistory, medicationId)
    ensures AfterUndo(s, doseHistory, medicationId) == s
  {
    LatestTakenDoseSpec(doseHistory, medicationId);
  }

  /** Undo deletes exactly one record from the store, the latest taken dose
      of the medication in the screen's history, and keeps every other record
      in order; this needs the store's ids to be unique and the history to be
      read from the store. */
  lemma {:induction false} UndoDeletesLatestDose(s: Persisted, doseHistory: seq<DoseRecord>, medicationId: Id)
    requires IsDoseTaken(doseHistory, medicationId)
    requires UniqueDoseIds(s.doses)
    requires forall k :: 0 <= k < |doseHistory| ==> doseHistory[k] in s.doses
    ensures LatestTakenDose(doseHistory, medicationId).Some?
    ensures var latest := LatestTakenDose(doseHistory, medicationId).value;
      TakenFor(latest, medicationId)
      && (forall j :: 0 <= j < |doseHistory| && TakenFor(doseHistory[j], medicationId) ==> doseHistory[j].timestamp <= latest.timestamp)
      && exists i :: 0 <= i < |s.doses| && s.doses[i] == latest
                     && AfterUndo(s, doseHistory, medicationId).doses == s.doses[..i] + s.doses[i + 1..]
    ensures |AfterUndo(s, doseHistory, medicationId).doses| == |s.doses| - 1
  {
    LatestTakenDoseSpec(doseHistory, medicationId);
    var latest := LatestTakenDose(doseHistory, medicationId).value;
    var k :| 0 <= k < |doseHistory| && doseHistory[k] == latest && TakenFor(latest, medicationId);
    assert latest in s.doses;
    var i :| 0 <= i < |s.doses| && s.doses[i] == latest;
    RemoveByIdUnique(s.doses, i);
    assert AfterUndo(s, doseHistory, medicationId).doses == RemoveById(s.doses, s.doses[i].id);
  }

  /** After undo, every record of another medication is as it was, and each
      record with this id is the first of them given one unit back. The
      supply invariant therefore holds afterwards if it held before. */
  lemma {:induction false} UndoRestoresSupply(s: Persisted, doseHistory: seq<DoseRecord>, medicationId: Id)
    requires IsDoseTaken(doseHistory, medicationId)
    ensures var after := AfterUndo(s, doseHistory, medicationId).medications;
      |after| == |s.medications|
      && (forall k :: 0 <= k < |s.medications| && s.medications[k].id != medicationId ==> after[k] == s.medications[k])
      && (forall k :: 0 <= k < |s.medications| && s.medications[k].id == medicationId ==>
            after[k] == RestoreSupply(FindById(s.medications, medicationId).value))
    ensures AllSupplyInBounds(s.medications) ==> AllSupplyInBounds(AfterUndo(s, doseHistory, medicationId).medications)
  {
    LatestTakenDoseSpec(doseHistory, medicationId);
    var found := FindById(s.medications, medicationId);
    if found.Some? {
      var m := found.value;
      assert AfterUndo(s, doseHistory, medicationId).medications == ReplaceById(s.medications, RestoreSupply(m));
      RestoreSupplyCapped(m);
      assert RestoreSupply(m).id == medicationId;
      if AllSupplyInBounds(s.medications) {
        var k :| 0 <= k < |s.medications| && s.medications[k] == m;
        assert SupplyInBounds(s.medications[k]);
      }
    }
  }

  /** A tap on an untaken card records one taken dose and writes nothing
      else; a tap on a taken card records nothing and only ever removes
      records, so no tap both takes and undoes. */
  lemma {:induction false} TapDispatch(s: Persisted, doseHistory: seq<DoseRecord>, medication: Medication, now: int, newId: Id)
    ensures var after := AfterTap(s, doseHistory, medication, now, newId);
      !IsDoseTaken(doseHistory, medication.id) ==>
        after.medications == s.medications
        && after.doses == s.doses + [DoseRecord(newId, medication.id, now, true)]
    ensures var after := AfterTap(s, doseHistory, medication, now, newId);
      IsDoseTaken(doseHistory, medication.id) ==>
        |after.doses| <= |s.doses| && forall x :: x in after.doses ==> x in s.doses
  {
  }

  /** No tap breaks the supply invariant of any stored medication. */
  lemma {:induction false} TapKeepsSupplyInBounds(s: Persisted, doseHistory: seq<DoseRecord>, medication: Medication, now: int, newId: Id)
    requires AllSupplyInBounds(s.medications)
    ensures AllSupplyInBounds(AfterTap(s, doseHistory, medication, now, newId).medications)
  {
    if IsDoseTaken(doseHistory, medication.id) {
      UndoRestoresSupply(s, doseHistory, medication.id);
    }
  }

  /** Take, reload, then tap again: the second tap undoes the first. The
      ledger is back as it was, but the supply is not: the modelled take does
      not lower it, and undo still raises it by one up to the total. */
  lemma {:induction false} TakeThenUndo(s: Persisted, doseHistory: seq<DoseRecord>, medication: Medication,
                                        now: int, newId: Id, later: int, otherId: Id)
    requires !IsDoseTaken(doseHistory, medication.id)
    requires forall k :: 0 <= k < |s.doses| ==> s.doses[k].id != newId
    ensures var taken := DoseRecord(newId, medication.id, now, true);
      var s1 := AfterTap(s, doseHistory, medication, now, newId);
      var s2 := AfterTap(s1, doseHistory + [taken], medication, later, otherId);
      s2.doses == s.doses
      && s2 == AfterUndo(Persisted(s.medications, s.doses + [taken]), doseHistory + [taken], medication.id)
      && |s2.medications| == |s.medications|
      && (forall k :: 0 <= k < |s.medications| && s.medications[k].id != medication.id ==> s2.medications[k] == s.medications[k])
      && (forall k :: 0 <= k < |s.medications| && s.medications[k].id == medication.id ==>
            s2.medications[k] == RestoreSupply(FindById(s.medications, medication.id).value))
  {
    var taken := DoseRecord(newId, medication.id, now, true);
    var h := doseHistory + [taken];
    var s1 := AfterTap(s, doseHistory, medication, now, newId);
    assert s1 == Persisted(s.medications, s.doses + [taken]);
    UndoFreshTake(s, doseHistory, medication.id, now, newId);
    assert AfterTap(s1, h, medication, later, otherId) == AfterUndo(s1, h, medication.id);
    UndoRestoresSupply(s1, h, medication.id);
  }

  /** Undoing right after a take deletes exactly the record the take
      appended. */
  lemma {:induction false} UndoFreshTake(s: Persisted, doseHistory: seq<DoseRecord>, medicationId: Id, now: int, newId: Id)
    requires !IsDoseTaken(doseHistory, medicationId)
    requires forall k :: 0 <= k < |s.doses| ==> s.doses[k].id != newId
    ensures var taken := DoseRecord(newId, medicationId, now, true);
      IsDoseTaken(doseHistory + [taken], medicationId)
      && AfterUndo(Persisted(s.medications, s.doses + [taken]), doseHistory + [taken], medicationId).doses == s.doses
  {
    var taken := DoseRecord(newId, medicationId, now, true);
    var h := doseHistory + [taken];
    assert h[|doseHistory|] == taken;
    LatestTakenDoseSpec(h, medicationId);
    LatestTakenDoseSpec(doseHistory, medicationId);
    var k :| 0 <= k < |h| && h[k] == LatestTakenDose(h, medicationId).value && TakenFor(h[k], medicationId);
    assert LatestTakenDose(h, medicationId) == Some(taken);
    RemoveByIdAppend(s.doses, [taken], newId);
    RemoveByIdAbsent(s.doses, newId);
    assert RemoveById([taken], newId) == [];
  }

  /** With a fresh record id and the medication stored below its total, the
      round trip leaves every stored record of it one unit higher, in a store
      holding any other medications too. */
  lemma {:induction false} RoundTripRaisesSupply(s: Persisted, doseHistory: seq<DoseRecord>, medication: Medication,
                                                 now: int, newId: Id, later: int, otherId: Id, c: int, t: int)
    requires !IsDoseTaken(doseHistory, medication.id)
    requires forall k :: 0 <= k < |s.doses| ==> s.doses[k].id != newId
    requires FindById(s.medications, medication.id) == Some(medication)
    requires medication.currentSupply == Int(c) && medication.totalSupply == Int(t) && c < t
    ensures var taken := DoseRecord(newId, medication.id, now, true);
      var s1 := AfterTap(s, doseHistory, medication, now, newId);
      var s2 := AfterTap(s1, doseHistory + [taken], medication, later, otherId);
      |s2.medications| == |s.medications|
      && forall k :: 0 <= k < |s.medications| && s.medications[k].id == medication.id ==>
           s2.medications[k].currentSupply == Int(c + 1)
  {
    TakeThenUndo(s, doseHistory, medication, now, newId, later, otherId);
    RestoreSupplyCapped(medication);
  }
}
