/** The two persisted entities: a medication as the add screen writes it and
    the other screens read it back, and a dose record of the dose history. */
module Records {
  import opened Js

  type Id = string

  /** Milliseconds in a day: 24 * 60 * 60 * 1000. */
  const MS_PER_DAY: int := 86400000

  /** A medication record. `duration` is the label chosen on the form
      ("7 days", "Ongoing", ...); `startDate` and `lastRefillDate` are
      instants in milliseconds since the epoch; the three supply figures are
      whatever Number() made of the form's text. */
  datatype Medication = Medication(
    id: Id,
    name: string,
    dosage: string,
    frequency: string,
    duration: string,
    startDate: int,
    times: seq<string>,
    notes: string,
    reminderEnabled: bool,
    refillReminder: bool,
    currentSupply: Num,
    totalSupply: Num,
    refillAt: Num,
    color: string,
    lastRefillDate: Option<int>)

  /** One entry of the dose history: `taken` is true for a dose taken. */
  datatype DoseRecord = DoseRecord(id: Id, medicationId: Id, timestamp: int, taken: bool)

  /** The supply invariant: both figures are numbers and 0 <= current <= total. */
  predicate SupplyInBounds(m: Medication) {
    m.currentSupply.Int? && m.totalSupply.Int? && 0 <= m.currentSupply.value <= m.totalSupply.value
  }

  predicate AllSupplyInBounds(meds: seq<Medication>) {
    forall i :: 0 <= i < |meds| ==> SupplyInBounds(meds[i])
  }

  /** No two dose records share an id. */
  predicate UniqueDoseIds(doses: seq<DoseRecord>) {
    forall i, j :: 0 <= i < j < |doses| ==> doses[i].id != doses[j].id
  }
}
