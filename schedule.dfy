/** Which medications the home screen lists for today (app/home.tsx,
    loadMedications). The duration is read back from the stored label with
    parseInt of its first word, and the window is compared in milliseconds. */
module Schedule {
  import opened Js
  import opened Records

  /** s.split(" ")[0]: everything before the first space. */
  function FirstWord(s: string): (w: string)
    ensures w <= s && ' ' !in w
    ensures |w| < |s| ==> s[|w|] == ' '
  {
    if s == [] || s[0] == ' ' then [] else [s[0]] + FirstWord(s[1..])
  }

  /** parseInt(duration.split(" ")[0]); None stands for NaN. A duration
      without a space is parsed whole, and one that starts with a space is
      NaN, because its first word is empty. */
  function DurationDays(duration: string): (r: Option<int>)
    ensures ' ' !in duration ==> r == ParseInt(duration)
    ensures duration != [] && duration[0] == ' ' ==> r.None?
  {
    FirstWordWithoutSpace(duration);
    ParseInt(FirstWord(duration))
  }

  /** A text without a space is its own first word. */
  lemma {:induction false} FirstWordWithoutSpace(s: string)
    ensures ' ' !in s ==> FirstWord(s) == s
  {
    if s != [] && ' ' !in s {
      assert s[0] != ' ';
      assert ' ' !in s[1..] by {
        forall i | 0 <= i < |s| - 1 ensures s[1..][i] != ' ' {
          assert s[1..][i] == s[i + 1];
        }
      }
      FirstWordWithoutSpace(s[1..]);
      assert s == [s[0]] + s[1..];
    }
  }

  /** The filter of loadMedications: a parsed duration of -1 is active on any
      instant; any other number n is active from the start instant to the
      start plus n days, both ends included; NaN is never active, because
      the end instant is then an invalid date and no comparison with it holds. */
  predicate IsActiveToday(med: Medication, today: int)
    ensures IsActiveToday(med, today) ==> DurationDays(med.duration).Some?
    ensures IsActiveToday(med, today) && DurationDays(med.duration) != Some(-1) ==> med.startDate <= today
  {
    var d := DurationDays(med.duration);
    d == Some(-1) || (d.Some? && med.startDate <= today && today <= med.startDate + d.value * MS_PER_DAY)
  }

  /** allMedications.filter(isActiveToday) */
  function TodaysMedications(meds: seq<Medication>, today: int): (r: seq<Medication>)
    ensures |r| <= |meds|
    ensures forall m :: m in r <==> m in meds && IsActiveToday(m, today)
  {
    if meds == [] then []
    else if IsActiveToday(meds[0], today) then [meds[0]] + TodaysMedications(meds[1..], today)
    else TodaysMedications(meds[1..], today)
  }

  /** r can be obtained from s by deleting elements, without reordering. */
  predicate IsSubsequence<T(==)>(r: seq<T>, s: seq<T>)
    decreases |s|
  {
    if r == [] then true
    else if s == [] then false
    else (r[0] == s[0] && IsSubsequence(r[1..], s[1..])) || IsSubsequence(r, s[1..])
  }

  /** Today's list keeps the store's order: it is a subsequence of all
      medications, and holds every active one. */
  lemma {:induction false} TodaysMedicationsKeepsOrder(meds: seq<Medication>, today: int)
    ensures IsSubsequence(TodaysMedications(meds, today), meds)
  {
    if meds != [] {
      TodaysMedicationsKeepsOrder(meds[1..], today);
      var rest := TodaysMedications(meds[1..], today);
      if IsActiveToday(meds[0], today) {
        assert ([meds[0]] + rest)[1..] == rest;
      } else if rest != [] {
        assert IsSubsequence(rest, meds[1..]);
      }
    }
  }

  /** A parsed duration of -1 is active on every instant: the sentinel
      skips the comparison with the start date, so this holds even before
      the medication starts. */
  lemma SentinelAlwaysActive(med: Medication, today: int)
    requires DurationDays(med.duration) == Some(-1)
    ensures IsActiveToday(med, today)
    ensures IsActiveToday(med, med.startDate - 1)
  {
  }

  /** A fixed duration of n >= 0 days is active exactly on the closed
      millisecond interval [start, start + n days], and on neither instant
      just outside it. */
  lemma FixedWindowInclusive(med: Medication, n: int, today: int)
    requires DurationDays(med.duration) == Some(n) && n != -1 && n >= 0
    ensures IsActiveToday(med, today) <==> med.startDate <= today <= med.startDate + n * MS_PER_DAY
    ensures IsActiveToday(med, med.startDate) && IsActiveToday(med, med.startDate + n * MS_PER_DAY)
    ensures !IsActiveToday(med, med.startDate - 1) && !IsActiveToday(med, med.startDate + n * MS_PER_DAY + 1)
  {
  }

  /** A duration whose first word is not a number is never active. */
  lemma NaNDurationNeverActive(med: Medication, today: int)
    requires DurationDays(med.duration).None?
    ensures !IsActiveToday(med, today)
  {
  }

  lemma {:induction false} FirstWordOfOngoing()
    ensures FirstWord("Ongoing") == "Ongoing"
  {
    assert "Ongoing"[1..] == "ngoing";
    assert "ngoing"[1..] == "going";
    assert "going"[1..] == "oing";
    assert "oing"[1..] == "ing";
    assert "ing"[1..] == "ng";
    assert "ng"[1..] == "g";
    assert "g"[1..] == "";
  }

  /** The label the form stores for an ongoing treatment, "Ongoing", parses
      to NaN, not to -1: such a medication is never listed for today. */
  lemma {:induction false} OngoingLabelNeverActive(med: Medication, today: int)
    requires med.duration == "Ongoing"
    ensures DurationDays(med.duration).None?
    ensures !IsActiveToday(med, today)
  {
    FirstWordOfOngoing();
    assert TrimStart("Ongoing") == "Ongoing";
  }

  /** FirstWord of "<n> days" for the labels the form offers. */
  lemma {:induction false} FirstWordOfDays(digits: string)
    requires ' ' !in digits
    ensures FirstWord(digits + " days") == digits
    decreases |digits|
  {
    if digits != [] {
      assert (digits + " days")[1..] == digits[1..] + " days";
      FirstWordOfDays(digits[1..]);
    } else {
      assert (digits + " days")[0] == ' ';
    }
  }

  lemma {:induction false} DigitRunOfDigits(s: string)
    requires AllDigits(s)
    ensures DigitRun(s) == |s|
  {
    if s != [] {
      DigitRunOfDigits(s[1..]);
    }
  }

  /** A label "<digits> days" is read back as the number its digits spell. */
  lemma {:induction false} DaysLabelParses(text: string, digits: string)
    requires digits != [] && AllDigits(digits)
    requires text == digits + " days"
    ensures DurationDays(text) == Some(DigitsValue(digits))
  {
    FirstWordOfDays(digits);
    assert TrimStart(digits) == digits;
    DigitRunOfDigits(digits);
    assert digits[..|digits|] == digits;
  }

  /** With a start of 2024-01-01T00:00Z and the label "7 days" the
      medication is listed up to and including 2024-01-08T00:00Z, and not one
      millisecond later, although that instant is still on 2024-01-08. */
  lemma {:induction false} SevenDayScenario(med: Medication)
    requires med.duration == "7 days" && med.startDate == 1704067200000
    ensures IsActiveToday(med, 1704067200000 + 7 * MS_PER_DAY)
    ensures !IsActiveToday(med, 1704067200000 + 7 * MS_PER_DAY + 1)
    ensures !IsActiveToday(med, 1704067200000 + 8 * MS_PER_DAY)
  {
    SevenDaysLabel();
    FixedWindowInclusive(med, 7, 1704067200000 + 8 * MS_PER_DAY);
  }

  lemma {:induction false} SevenDaysLabel()
    ensures DurationDays("7 days") == Some(7)
  {
    DaysLabelParses("7 days", "7");
    assert DigitsValue("7") == 7 by {
      assert "7"[..0] == "";
    }
  }
}
