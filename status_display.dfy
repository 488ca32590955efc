/** The overdue / upcoming classification of schedule entries for the selected baby
    (src/components/VaccinationStatusDisplay.tsx). The baby's age in months is an
    input: the source derives it from the clock and the birth date. */
module StatusDisplay {
  import opened Seqs
  import opened Records
  import opened Schedule

  /** The record test of both calculators: same vaccine name, same baby. */
  predicate Matches(r: Record, babyId: string, vaccineName: string)
  {
    r.vaccineName == vaccineName && r.babyId == babyId
  }

  /** `!records.find(r => r.vaccineName === vaccineName && r.babyId === babyId)`:
      JavaScript objects are always truthy, so this holds exactly when no record matches. */
  function NotRecorded(records: seq<Record>, babyId: string, vaccineName: string): (b: bool)
    ensures b <==> forall r :: r in records ==> !Matches(r, babyId, vaccineName)
  {
    Find((r: Record) => Matches(r, babyId, vaccineName), records).None?
  }

  /** The first filter of the overdue calculator: the window has already closed. */
  function PastWindow(ageMonths: int): ScheduleEntry -> bool
  {
    (e: ScheduleEntry) => ageMonths > e.maxAgeMonths
  }

  /** The first filter of the upcoming calculator: the window has not opened yet. */
  function BeforeWindow(ageMonths: int): ScheduleEntry -> bool
  {
    (e: ScheduleEntry) => ageMonths < e.minAgeMonths
  }

  /** The second filter of both calculators: the baby has no record of this vaccine. */
  function Unrecorded(records: seq<Record>, babyId: string): ScheduleEntry -> bool
  {
    (e: ScheduleEntry) => NotRecorded(records, babyId, e.vaccineName)
  }

  /** `calculateOverdueVaccinations`: the entries whose window closed before the
      baby's age and that the baby has no record of, in schedule order; nothing
      when no baby is selected. */
  function CalculateOverdue(selectedBaby: Option<Profile>, schedule: seq<ScheduleEntry>,
                            records: seq<Record>, ageMonths: int): (r: seq<ScheduleEntry>)
    ensures selectedBaby.None? ==> r == []
    ensures forall e :: e in r <==>
      selectedBaby.Some? && e in schedule && ageMonths > e.maxAgeMonths
      && NotRecorded(records, selectedBaby.value.id, e.vaccineName)
    ensures Subseq(r, schedule)
    ensures forall e :: multiset(r)[e] ==
                        if selectedBaby.Some? && ageMonths > e.maxAgeMonths
                           && NotRecorded(records, selectedBaby.value.id, e.vaccineName)
                        then multiset(schedule)[e] else 0
  {
    if selectedBaby.None? then []
    else
      var potential := Filter(PastWindow(ageMonths), schedule);
      FilterMultiset(PastWindow(ageMonths), schedule);
      FilterMultiset(Unrecorded(records, selectedBaby.value.id), potential);
      FilterFilterSubseq(PastWindow(ageMonths), Unrecorded(records, selectedBaby.value.id), schedule);
      Filter(Unrecorded(records, selectedBaby.value.id), potential)
  }

  /** `calculateUpcomingVaccinations`: the entries whose window opens after the
      baby's age and that the baby has no record of, in schedule order; nothing
      when no baby is selected. */
  function CalculateUpcoming(selectedBaby: Option<Profile>, schedule: seq<ScheduleEntry>,
                             records: seq<Record>, ageMonths: int): (r: seq<ScheduleEntry>)
    ensures selectedBaby.None? ==> r == []
    ensures forall e :: e in r <==>
      selectedBaby.Some? && e in schedule && ageMonths < e.minAgeMonths
      && NotRecorded(records, selectedBaby.value.id, e.vaccineName)
    ensures Subseq(r, schedule)
    ensures forall e :: multiset(r)[e] ==
                        if selectedBaby.Some? && ageMonths < e.minAgeMonths
                           && NotRecorded(records, selectedBaby.value.id, e.vaccineName)
                        then multiset(schedule)[e] else 0
  {
    if selectedBaby.None? then []
    else
      var future := Filter(BeforeWindow(ageMonths), schedule);
      FilterMultiset(BeforeWindow(ageMonths), schedule);
      FilterMultiset(Unrecorded(records, selectedBaby.value.id), future);
      FilterFilterSubseq(BeforeWindow(ageMonths), Unrecorded(records, selectedBaby.value.id), schedule);
      Filter(Unrecorded(records, selectedBaby.value.id), future)
  }

  /** An entry whose window contains the age is in neither list. */
  lemma CurrentEntryInNeither(selectedBaby: Option<Profile>, schedule: seq<ScheduleEntry>,
                              records: seq<Record>, ageMonths: int, e: ScheduleEntry)
    requires e.minAgeMonths <= ageMonths <= e.maxAgeMonths
    ensures e !in CalculateOverdue(selectedBaby, schedule, records, ageMonths)
    ensures e !in CalculateUpcoming(selectedBaby, schedule, records, ageMonths)
  {
  }

  /** With well-formed windows no entry is both overdue and upcoming. */
  lemma OverdueUpcomingDisjoint(selectedBaby: Option<Profile>, schedule: seq<ScheduleEntry>,
                                records: seq<Record>, ageMonths: int)
    requires forall e :: e in schedule ==> e.minAgeMonths <= e.maxAgeMonths
    ensures forall e :: e in CalculateOverdue(selectedBaby, schedule, records, ageMonths) ==>
      e !in CalculateUpcoming(selectedBaby, schedule, records, ageMonths)
  {
  }

  /** Recording a vaccine for the selected baby takes every entry of that name off both lists. */
  lemma RecordRemovesEntry(selectedBaby: Option<Profile>, schedule: seq<ScheduleEntry>,
                           records: seq<Record>, ageMonths: int, rec: Record)
    requires selectedBaby.Some? && rec.babyId == selectedBaby.value.id
    ensures forall e: ScheduleEntry :: e.vaccineName == rec.vaccineName ==>
      e !in CalculateOverdue(selectedBaby, schedule, records + [rec], ageMonths)
      && e !in CalculateUpcoming(selectedBaby, schedule, records + [rec], ageMonths)
  {
    assert rec in records + [rec];
  }

  /** The records of the selected baby: the only ones the calculators look at. */
  function OfBaby(babyId: string): Record -> bool
  {
    (r: Record) => r.babyId == babyId
  }

  /** Removing every record of another baby changes neither list. */
  lemma OtherBabiesIgnored(selectedBaby: Option<Profile>, schedule: seq<ScheduleEntry>,
                           records: seq<Record>, ageMonths: int)
    requires selectedBaby.Some?
    ensures CalculateOverdue(selectedBaby, schedule, records, ageMonths)
         == CalculateOverdue(selectedBaby, schedule, Filter(OfBaby(selectedBaby.value.id), records), ageMonths)
    ensures CalculateUpcoming(selectedBaby, schedule, records, ageMonths)
         == CalculateUpcoming(selectedBaby, schedule, Filter(OfBaby(selectedBaby.value.id), records), ageMonths)
  {
    var id := selectedBaby.value.id;
    var own := Filter(OfBaby(id), records);
    forall e: ScheduleEntry ensures Unrecorded(records, id)(e) == Unrecorded(own, id)(e) {
      assert NotRecorded(records, id, e.vaccineName) == NotRecorded(own, id, e.vaccineName);
    }
    FilterExt(Unrecorded(records, id), Unrecorded(own, id), Filter(PastWindow(ageMonths), schedule));
    FilterExt(Unrecorded(records, id), Unrecorded(own, id), Filter(BeforeWindow(ageMonths), schedule));
  }

  /** More records never add an entry: each list for a larger record set is a
      subsequence of the list for a smaller one. */
  lemma MoreRecordsShrinkLists(selectedBaby: Option<Profile>, schedule: seq<ScheduleEntry>,
                               fewer: seq<Record>, more: seq<Record>, ageMonths: int)
    requires forall r :: r in fewer ==> r in more
    ensures Subseq(CalculateOverdue(selectedBaby, schedule, more, ageMonths),
                   CalculateOverdue(selectedBaby, schedule, fewer, ageMonths))
    ensures Subseq(CalculateUpcoming(selectedBaby, schedule, more, ageMonths),
                   CalculateUpcoming(selectedBaby, schedule, fewer, ageMonths))
  {
    if selectedBaby.Some? {
      var id := selectedBaby.value.id;
      FilterAntitone(Unrecorded(fewer, id), Unrecorded(more, id), Filter(PastWindow(ageMonths), schedule));
      FilterAntitone(Unrecorded(fewer, id), Unrecorded(more, id), Filter(BeforeWindow(ageMonths), schedule));
    }
  }
}
