/** The refill tracker (app/refills/index.tsx): the supply tier of each card,
    the label of its refill button, and recording a refill. */
module Refills {
  import opened Js
  import opened Records
  import opened Storage

  /** The badge of a card: "Low", "Medium" or "Good". */
  datatype Tier = Low | Medium | Good

  /** The label of the refill button: "Refill Now" or "Fully Stocked". */
  datatype ButtonLabel = RefillNow | FullyStocked

  /** (currentSupply / totalSupply) * 100 */
  function SupplyPercentage(m: Medication): (p: Pct)
    ensures p.PctFinite? ==> p.den > 0
  {
    Percentage(m.currentSupply, m.totalSupply)
  }

  /** getSupplyStatus: Low when the percentage is at most refillAt, else
      Medium when it is at most 50, else Good. A comparison with NaN is
      false, so a NaN percentage falls through to Good. */
  function SupplyStatus(m: Medication): (r: Tier)
    ensures r == Low ==> m.refillAt.Int?
    ensures m.currentSupply.NaN? || m.totalSupply.NaN? ==> r == Good
  {
    var p := SupplyPercentage(m);
    if PctAtMost(p, m.refillAt) then Low
    else if PctAtMost(p, Int(50)) then Medium
    else Good
  }

  /** supplyPercentage < 100 ? "Refill Now" : "Fully Stocked" */
  function RefillButton(m: Medication): (r: ButtonLabel)
    ensures m.currentSupply == m.totalSupply ==> r == FullyStocked
    ensures m.currentSupply.NaN? || m.totalSupply.NaN? ==> r == FullyStocked
    ensures m.currentSupply.Int? && m.totalSupply.Int? && m.totalSupply.value > 0 ==>
      (r == RefillNow <==> m.currentSupply.value < m.totalSupply.value)
  {
    if PctBelow(SupplyPercentage(m), 100) then RefillNow else FullyStocked
  }

  /** A higher rank is a better stocked tier. */
  function Rank(t: Tier): (r: nat)
    ensures r <= 2
  {
    match t
    case Low => 0
    case Medium => 1
    case Good => 2
  }

  /** With a positive total the tier is decided on whole numbers:
      Low when current * 100 <= refillAt * total, Medium when not Low and
      current * 100 <= 50 * total, Good otherwise. A threshold that is NaN
      never yields Low. */
  lemma SupplyStatusPositiveTotal(m: Medication)
    requires m.currentSupply.Int? && m.totalSupply.Int? && m.totalSupply.value > 0
    ensures var c, t := m.currentSupply.value, m.totalSupply.value;
      (SupplyStatus(m) == Low <==> m.refillAt.Int? && c * 100 <= m.refillAt.value * t)
      && (SupplyStatus(m) == Medium <==> !(m.refillAt.Int? && c * 100 <= m.refillAt.value * t) && c * 100 <= 50 * t)
      && (SupplyStatus(m) == Good <==> !(m.refillAt.Int? && c * 100 <= m.refillAt.value * t) && c * 100 > 50 * t)
  {
  }

  /** A medication with a total of 0 and a non-negative supply is shown as
      Good: 0 / 0 is NaN and a positive supply over 0 is +Infinity, and
      neither is at most any threshold. A supply that is NaN is Good too. */
  lemma ZeroTotalIsGood(m: Medication)
    requires m.totalSupply == Int(0)
    requires m.currentSupply.NaN? || m.currentSupply.value >= 0
    ensures SupplyStatus(m) == Good
    ensures RefillButton(m) == FullyStocked
  {
  }

  lemma NaNSupplyIsGood(m: Medication)
    requires m.currentSupply.NaN? || m.totalSupply.NaN?
    ensures SupplyStatus(m) == Good
    ensures RefillButton(m) == FullyStocked
  {
  }

  /** Taking pills never improves the tier: with the same positive total and
      threshold, a smaller supply has a tier of at most the same rank. */
  lemma {:induction false} SupplyStatusMonotone(m: Medication, c1: int, c2: int)
    requires m.totalSupply.Int? && m.totalSupply.value > 0
    requires c1 <= c2
    ensures Rank(SupplyStatus(m.(currentSupply := Int(c1)))) <= Rank(SupplyStatus(m.(currentSupply := Int(c2))))
  {
    var t := m.totalSupply.value;
    SupplyStatusPositiveTotal(m.(currentSupply := Int(c1)));
    SupplyStatusPositiveTotal(m.(currentSupply := Int(c2)));
    assert c1 * 100 <= c2 * 100;
  }

  /** Within the supply bounds the button reads "Refill Now" exactly when
      the supply is below the total. */
  lemma {:induction false} RefillButtonIffBelowTotal(m: Medication)
    requires SupplyInBounds(m)
    ensures RefillButton(m) == RefillNow <==> m.currentSupply.value < m.totalSupply.value
  {
    if m.totalSupply.value == 0 {
      ZeroTotalIsGood(m);
    }
  }

  /** handleRefill: the supply is set to the total and the refill instant is
      recorded; the ISO string of `new Date()` is kept as its instant. */
  function Refill(m: Medication, now: int): (r: Medication)
    ensures r.currentSupply == m.totalSupply && r.totalSupply == m.totalSupply
    ensures r.lastRefillDate == Some(now)
    ensures r.(currentSupply := m.currentSupply, lastRefillDate := m.lastRefillDate) == m
  {
    m.(currentSupply := m.totalSupply, lastRefillDate := Some(now))
  }

  /** A refill writes only the supply and the refill date, repeating it only
      moves the date, and afterwards every card reads "Fully Stocked": the
      percentage is 100 for any non-zero total and NaN otherwise. With a
      positive total the tier is then Low only when the threshold is at
      least 100, and Good otherwise. */
  lemma RefillSpec(m: Medication, now: int, later: int)
    ensures Refill(m, now).(currentSupply := m.currentSupply, lastRefillDate := m.lastRefillDate) == m
    ensures Refill(m, now).currentSupply == m.totalSupply && Refill(m, now).lastRefillDate == Some(now)
    ensures Refill(Refill(m, now), later) == Refill(m, later)
    ensures RefillButton(Refill(m, now)) == FullyStocked
    ensures m.totalSupply.Int? && m.totalSupply.value > 0 ==>
      SupplyStatus(Refill(m, now)) == if m.refillAt.Int? && m.refillAt.value >= 100 then Low else Good
    ensures SupplyInBounds(Refill(m, now)) <==> m.totalSupply.Int? && m.totalSupply.value >= 0
  {
  }

  /** A refill raises the supply to the total, so from within the bounds it
      never lowers the tier. */
  lemma {:induction false} RefillNeverLowersTier(m: Medication, now: int)
    requires SupplyInBounds(m) && m.totalSupply.value > 0
    ensures Rank(SupplyStatus(m)) <= Rank(SupplyStatus(Refill(m, now)))
  {
    SupplyStatusMonotone(m, m.currentSupply.value, m.totalSupply.value);
    assert m.(currentSupply := Int(m.currentSupply.value)) == m;
    assert m.(currentSupply := Int(m.totalSupply.value)).(lastRefillDate := Some(now)) == Refill(m, now);
    assert SupplyStatus(m.(currentSupply := Int(m.totalSupply.value))) == SupplyStatus(Refill(m, now));
  }

  /** A full supply of 30 with alert threshold 20 is Good; 5 of 30 is Low. */
  lemma StatusScenarios(m: Medication)
    requires m.totalSupply == Int(30) && m.refillAt == Int(20)
    ensures SupplyStatus(m.(currentSupply := Int(30))) == Good
    ensures SupplyStatus(m.(currentSupply := Int(5))) == Low
    ensures SupplyStatus(m.(currentSupply := Int(12))) == Medium
  {
  }

  /** handleRefill on the store: updateMedication of the refilled record. */
  method HandleRefill(store: Store, medication: Medication, now: int)
    modifies store
    ensures store.State() == Persisted(ReplaceById(old(store.medications), Refill(medication, now)), old(store.doses))
  {
    var updatedMedication := Refill(medication, now);
    store.UpdateMedication(updatedMedication);
  }

  /** The store after a refill: every record with the medication's id is the
      refilled card, every other record is unchanged. */
  lemma RefillStoreEffect(meds: seq<Medication>, medication: Medication, now: int)
    ensures var after := ReplaceById(meds, Refill(medication, now));
      |after| == |meds|
      && (forall k :: 0 <= k < |meds| && meds[k].id == medication.id ==>
            after[k].currentSupply == medication.totalSupply && RefillButton(after[k]) == FullyStocked)
      && (forall k :: 0 <= k < |meds| && meds[k].id != medication.id ==> after[k] == meds[k])
  {
    RefillSpec(medication, now, now);
  }
}
