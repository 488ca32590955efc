/** The static vaccination schedule and the lookup of the entries whose age window
    contains a given age (src/services/vaccination-schedule.ts). */
module Schedule {
  import opened Seqs

  /** A schedule row: the vaccine and the inclusive window of ages, in months, in
      which it is given. */
  datatype ScheduleEntry = ScheduleEntry(
    vaccineName: string,
    minAgeMonths: int,
    maxAgeMonths: int,
    description: string)

  /** The fixed table of recommended vaccinations, in the order the source lists them. */
  const VaccinationSchedule: seq<ScheduleEntry> :=
    [
      ScheduleEntry("Hepatit B - 1", 0, 1,
        "Protects against Hepatitis B virus (1st dose)"),
      ScheduleEntry("Hepatit B - 2", 1, 2,
        "Protects against Hepatitis B virus (2nd dose)"),
      ScheduleEntry("BCG (Verem)", 1, 2,
        "Protects against tuberculosis"),
      ScheduleEntry("DaBT-IPA-Hib - 1", 2, 4,
        "Protects against Diphtheria, Tetanus, Pertussis, Polio, Haemophilus influenzae type b (1st dose)"),
      ScheduleEntry("KPA - 1", 2, 4,
        "Protects against pneumococcal diseases (1st dose)"),
      ScheduleEntry("DaBT-IPA-Hib - 2", 4, 6,
        "Protects against Diphtheria, Tetanus, Pertussis, Polio, Haemophilus influenzae type b (2nd dose)"),
      ScheduleEntry("KPA - 2", 4, 6,
        "Protects against pneumococcal diseases (2nd dose)"),
      ScheduleEntry("DaBT-IPA-Hib - 3", 6, 9,
        "Protects against Diphtheria, Tetanus, Pertussis, Polio, Haemophilus influenzae type b (3rd dose)"),
      ScheduleEntry("OPA", 6, 9,
        "Protects against poliomyelitis"),
      ScheduleEntry("KKK - ID", 9, 11,
        "Protects against Measles, Mumps, Rubella (additional dose for high-risk areas)"),
      ScheduleEntry("KPA - R", 12, 13,
        "Protects against pneumococcal diseases (booster dose)"),
      ScheduleEntry("KKK - 1", 12, 13,
        "Protects against Measles, Mumps, Rubella (1st dose)"),
      ScheduleEntry("Hepatit A", 12, 18,
        "Protects against Hepatitis A"),
      ScheduleEntry("DaBT-IPA-Hib - R", 18, 24,
        "Protects against Diphtheria, Tetanus, Pertussis, Polio, Haemophilus influenzae type b (booster dose)"),
      ScheduleEntry("OPA - 2", 18, 24,
        "Protects against poliomyelitis (2nd dose)"),
      ScheduleEntry("Hepatit A - 2", 24, 30,
        "Protects against Hepatitis A (2nd dose)"),
      ScheduleEntry("KKK - 2", 48, 50,
        "Protects against Measles, Mumps, Rubella (2nd dose)"),
      ScheduleEntry("DaBT-IPA - R", 48, 50,
        "Protects against Diphtheria, Tetanus, Pertussis, Polio (booster dose)"),
      ScheduleEntry("Td", 156, 168,
        "Protects against Tetanus and Diphtheria (booster dose)")
    ]

  /** The window test of the lookup; both bounds are inclusive. */
  predicate InWindow(e: ScheduleEntry, ageMonths: int)
  {
    ageMonths >= e.minAgeMonths && ageMonths <= e.maxAgeMonths
  }

  /** The start of an entry's window, the key by which the table is ordered. */
  function MinAge(e: ScheduleEntry): int
  {
    e.minAgeMonths
  }

  /** `getVaccinationScheduleForAge`: the table entries whose window contains the age,
      in table order. */
  function ScheduleForAge(ageMonths: int): (r: seq<ScheduleEntry>)
    ensures forall e {:trigger e in r} :: e in r <==> e in VaccinationSchedule && e.minAgeMonths <= ageMonths <= e.maxAgeMonths
    ensures Subseq(r, VaccinationSchedule)
    ensures |r| <= 19
  {
    FilterSubseq(e => InWindow(e, ageMonths), VaccinationSchedule);
    Filter(e => InWindow(e, ageMonths), VaccinationSchedule)
  }

  /** Every window is non-empty and starts at a non-negative age. */
  lemma TableWindowsWellFormed()
    ensures |VaccinationSchedule| == 19
    ensures forall i :: 0 <= i < |VaccinationSchedule| ==>
      0 <= VaccinationSchedule[i].minAgeMonths < VaccinationSchedule[i].maxAgeMonths
  {
  }

  /** No vaccine name occurs twice in the table. */
  lemma TableNamesDistinct()
    ensures forall i, j :: 0 <= i < j < |VaccinationSchedule| ==>
      VaccinationSchedule[i].vaccineName != VaccinationSchedule[j].vaccineName
  {
  }

  /** The table is ordered by the start of the window. */
  lemma TableSortedByMinAge()
    ensures SortedBy(MinAge, VaccinationSchedule)
  {
    AdjacentSorted(MinAge, VaccinationSchedule);
  }

  /** Being a subsequence of the table, every lookup result is ordered by window start. */
  lemma ScheduleForAgeSorted(ageMonths: int)
    ensures SortedBy(MinAge, ScheduleForAge(ageMonths))
  {
    TableSortedByMinAge();
    SubseqSorted(MinAge, ScheduleForAge(ageMonths), VaccinationSchedule);
  }

  /** At birth only the first hepatitis B dose is due. */
  lemma ScheduleAtBirth()
    ensures ScheduleForAge(0) == VaccinationSchedule[..1]
    ensures |ScheduleForAge(0)| == 1 && ScheduleForAge(0)[0].vaccineName == "Hepatit B - 1"
  {
    FilterKeepsPrefix(e => InWindow(e, 0), VaccinationSchedule, 1);
  }

  /** At one month the windows ending and starting there both match: the bounds are inclusive. */
  lemma ScheduleAtOneMonth()
    ensures ScheduleForAge(1) == VaccinationSchedule[..3]
    ensures |ScheduleForAge(1)| == 3
    ensures ScheduleForAge(1)[0].vaccineName == "Hepatit B - 1"
    ensures ScheduleForAge(1)[1].vaccineName == "Hepatit B - 2"
    ensures ScheduleForAge(1)[2].vaccineName == "BCG (Verem)"
  {
    FilterKeepsPrefix(e => InWindow(e, 1), VaccinationSchedule, 3);
  }

  /** Between 31 and 47 months, between 51 and 155 months, after 168 months, and for
      negative ages nothing is due. */
  lemma ScheduleGaps(ageMonths: int)
    requires 31 <= ageMonths <= 47 || 51 <= ageMonths <= 155 || ageMonths > 168 || ageMonths < 0
    ensures ScheduleForAge(ageMonths) == []
  {
    assert forall i :: 0 <= i < |VaccinationSchedule| ==> !InWindow(VaccinationSchedule[i], ageMonths);
    FilterNone(e => InWindow(e, ageMonths), VaccinationSchedule);
  }
}
