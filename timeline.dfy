/** The tracker screen (src/components/VaccinationTimeline.tsx): its own copy of the
    overdue / upcoming calculators, the record and profile state with the operations
    that replace it, profile selection, and the list of records it displays. Fresh
    ids (the source uses the current time) and ages in months are inputs. */
module Timeline {
  import opened Seqs
  import opened Records
  import opened Schedule
  import StatusDisplay

  // The VaccinationStatus component repeats the two calculators in its own code.

  /** `calculateOverdueVaccinations` of VaccinationStatus. */
  function StatusOverdue(selectedBaby: Option<Profile>, vaccinationSchedule: seq<ScheduleEntry>,
                         records: seq<Record>, ageMonths: int): (r: seq<ScheduleEntry>)
    ensures r == StatusDisplay.CalculateOverdue(selectedBaby, vaccinationSchedule, records, ageMonths)
  {
    if selectedBaby.None? then []
    else
      var baby := selectedBaby.value;
      var potential := Filter((e: ScheduleEntry) => ageMonths > e.maxAgeMonths, vaccinationSchedule);
      FilterExt((e: ScheduleEntry) => ageMonths > e.maxAgeMonths, StatusDisplay.PastWindow(ageMonths), vaccinationSchedule);
      FilterExt((e: ScheduleEntry) => StatusDisplay.NotRecorded(records, baby.id, e.vaccineName),
                StatusDisplay.Unrecorded(records, baby.id), potential);
      Filter((e: ScheduleEntry) => StatusDisplay.NotRecorded(records, baby.id, e.vaccineName), potential)
  }

  /** `calculateUpcomingVaccinations` of VaccinationStatus. */
  function StatusUpcoming(selectedBaby: Option<Profile>, vaccinationSchedule: seq<ScheduleEntry>,
                          records: seq<Record>, ageMonths: int): (r: seq<ScheduleEntry>)
    ensures r == StatusDisplay.CalculateUpcoming(selectedBaby, vaccinationSchedule, records, ageMonths)
  {
    if selectedBaby.None? then []
    else
      var baby := selectedBaby.value;
      var future := Filter((e: ScheduleEntry) => ageMonths < e.minAgeMonths, vaccinationSchedule);
      FilterExt((e: ScheduleEntry) => ageMonths < e.minAgeMonths, StatusDisplay.BeforeWindow(ageMonths), vaccinationSchedule);
      FilterExt((e: ScheduleEntry) => StatusDisplay.NotRecorded(records, baby.id, e.vaccineName),
                StatusDisplay.Unrecorded(records, baby.id), future);
      Filter((e: ScheduleEntry) => StatusDisplay.NotRecorded(records, baby.id, e.vaccineName), future)
  }

  /** The screen stores the lookup for the age at the time the baby was selected
      (`lookupAge`) and the panel classifies it against the age it computes when it
      renders (`ageMonths`). An entry is overdue exactly when its window contained the
      lookup age and has closed by the render age; upcoming exactly when its window
      contained the lookup age and has not opened by the render age. */
  lemma {:induction false} StoredLookupStatus(selectedBaby: Option<Profile>, records: seq<Record>,
                                              lookupAge: int, ageMonths: int)
    requires selectedBaby.Some?
    ensures forall e :: e in StatusOverdue(selectedBaby, ScheduleForAge(lookupAge), records, ageMonths) <==>
      e in VaccinationSchedule && e.minAgeMonths <= lookupAge <= e.maxAgeMonths < ageMonths
      && StatusDisplay.NotRecorded(records, selectedBaby.value.id, e.vaccineName)
    ensures forall e :: e in StatusUpcoming(selectedBaby, ScheduleForAge(lookupAge), records, ageMonths) <==>
      e in VaccinationSchedule && ageMonths < e.minAgeMonths <= lookupAge <= e.maxAgeMonths
      && StatusDisplay.NotRecorded(records, selectedBaby.value.id, e.vaccineName)
  {
  }

  /** A lookup made at one month and classified at two months (a month boundary passed
      without a new selection) lists the first hepatitis B dose as overdue. */
  lemma {:induction false} StaleLookupExample(baby: Profile)
    ensures VaccinationSchedule[0] in StatusOverdue(Some(baby), ScheduleForAge(1), [], 2)
  {
    var hepB := VaccinationSchedule[0];
    assert hepB in VaccinationSchedule && hepB.minAgeMonths == 0 && hepB.maxAgeMonths == 1;
    assert StatusDisplay.NotRecorded([], baby.id, hepB.vaccineName);
    StoredLookupStatus(Some(baby), [], 1, 2);
  }

  /** A lookup made at 50 months still shown for a baby of one month (a selection
      switched while the new lookup is pending or after it failed) lists the four-year
      measles dose as upcoming. */
  lemma {:induction false} StaleLookupAheadExample(baby: Profile)
    ensures VaccinationSchedule[16] in StatusUpcoming(Some(baby), ScheduleForAge(50), [], 1)
  {
    var measles := VaccinationSchedule[16];
    assert measles in VaccinationSchedule && measles.minAgeMonths == 48 && measles.maxAgeMonths == 50;
    assert StatusDisplay.NotRecorded([], baby.id, measles.vaccineName);
    StoredLookupStatus(Some(baby), [], 50, 1);
  }

  /** Whenever the stored lookup is the one for the age the panel computes, and every
      entry of that lookup has a window containing the age: both lists are empty,
      whatever has been recorded. */
  lemma {:induction false} LookupScheduleHidesStatus(selectedBaby: Option<Profile>, records: seq<Record>, ageMonths: int)
    ensures StatusOverdue(selectedBaby, ScheduleForAge(ageMonths), records, ageMonths) == []
    ensures StatusUpcoming(selectedBaby, ScheduleForAge(ageMonths), records, ageMonths) == []
  {
    var shown := ScheduleForAge(ageMonths);
    forall i | 0 <= i < |shown|
      ensures !StatusDisplay.PastWindow(ageMonths)(shown[i]) && !StatusDisplay.BeforeWindow(ageMonths)(shown[i])
    {
      assert shown[i] in shown;
    }
    FilterNone(StatusDisplay.PastWindow(ageMonths), shown);
    FilterNone(StatusDisplay.BeforeWindow(ageMonths), shown);
  }

  /** The intended overdue list: the calculator applied to the whole table. */
  function IntendedOverdue(selectedBaby: Option<Profile>, records: seq<Record>, ageMonths: int): (r: seq<ScheduleEntry>)
    ensures forall e :: e in r <==>
      selectedBaby.Some? && e in VaccinationSchedule && ageMonths > e.maxAgeMonths
      && StatusDisplay.NotRecorded(records, selectedBaby.value.id, e.vaccineName)
    ensures Subseq(r, VaccinationSchedule)
  {
    StatusOverdue(selectedBaby, VaccinationSchedule, records, ageMonths)
  }

  /** The intended upcoming list: the calculator applied to the whole table. */
  function IntendedUpcoming(selectedBaby: Option<Profile>, records: seq<Record>, ageMonths: int): (r: seq<ScheduleEntry>)
    ensures forall e :: e in r <==>
      selectedBaby.Some? && e in VaccinationSchedule && ageMonths < e.minAgeMonths
      && StatusDisplay.NotRecorded(records, selectedBaby.value.id, e.vaccineName)
    ensures Subseq(r, VaccinationSchedule)
  {
    StatusUpcoming(selectedBaby, VaccinationSchedule, records, ageMonths)
  }

  /** A five-month-old with no records has missed the birth dose of hepatitis B:
      the whole-table overdue list reports it, the list the screen shows does not. */
  lemma {:induction false} MissedDoseExample(baby: Profile)
    ensures VaccinationSchedule[0] in IntendedOverdue(Some(baby), [], 5)
    ensures StatusOverdue(Some(baby), ScheduleForAge(5), [], 5) == []
  {
    var hepB := VaccinationSchedule[0];
    assert hepB in VaccinationSchedule && hepB.maxAgeMonths == 1;
    assert StatusDisplay.NotRecorded([], baby.id, hepB.vaccineName);
    LookupScheduleHidesStatus(Some(baby), [], 5);
  }

  /** The same baby has the four-year measles dose ahead: the whole-table upcoming
      list reports it, the list the screen shows does not. */
  lemma {:induction false} AheadDoseExample(baby: Profile)
    ensures VaccinationSchedule[16] in IntendedUpcoming(Some(baby), [], 5)
    ensures StatusUpcoming(Some(baby), ScheduleForAge(5), [], 5) == []
  {
    var measles := VaccinationSchedule[16];
    assert measles in VaccinationSchedule && measles.minAgeMonths == 48;
    assert StatusDisplay.NotRecorded([], baby.id, measles.vaccineName);
    LookupScheduleHidesStatus(Some(baby), [], 5);
  }

  /** The record `addVaccinationRecord` builds: the form's fields, a fresh id and the
      selected baby's id. */
  function Stamp(draft: RecordDraft, id: string, babyId: string): Record
  {
    Record(draft.vaccineName, draft.date, draft.batchNumber, draft.notes, id, babyId)
  }

  /** `records.map(r => r.id === updated.id ? updated : r)`. */
  function ReplaceById(records: seq<Record>, updated: Record): (r: seq<Record>)
    ensures |r| == |records|
    ensures forall i :: 0 <= i < |r| ==>
      r[i] == if records[i].id == updated.id then updated else records[i]
  {
    if records == [] then []
    else [if records[0].id == updated.id then updated else records[0]] + ReplaceById(records[1..], updated)
  }

  /** Applying the same edit twice is the same as applying it once. */
  lemma {:induction false} ReplaceByIdIdempotent(records: seq<Record>, updated: Record)
    ensures ReplaceById(ReplaceById(records, updated), updated) == ReplaceById(records, updated)
  {
  }

  /** An edit whose id matches no record changes nothing. */
  lemma {:induction false} ReplaceByIdAbsent(records: seq<Record>, updated: Record)
    requires forall r :: r in records ==> r.id != updated.id
    ensures ReplaceById(records, updated) == records
  {
    var r := ReplaceById(records, updated);
    assert forall i :: 0 <= i < |records| ==> r[i] == records[i] by {
      forall i | 0 <= i < |records| ensures r[i] == records[i] {
        assert records[i] in records;
      }
    }
  }

  /** The records without the given id. */
  function OtherId(id: string): Record -> bool
  {
    (r: Record) => r.id != id
  }

  /** `records.filter(r => r.id !== id)`: every record with that id is gone, every
      other one is kept with its number of occurrences, in the original order. */
  function RemoveById(records: seq<Record>, id: string): (r: seq<Record>)
    ensures forall x :: x in r <==> x in records && x.id != id
    ensures forall x :: multiset(r)[x] == if x.id != id then multiset(records)[x] else 0
    ensures Subseq(r, records)
  {
    FilterMultiset(OtherId(id), records);
    FilterSubseq(OtherId(id), records);
    Filter(OtherId(id), records)
  }

  /** `babyProfiles.find(p => p.id === id)`: the first profile with that id, if any. */
  function FindProfile(profiles: seq<Profile>, id: string): (r: Option<Profile>)
    ensures r.None? <==> forall p :: p in profiles ==> p.id != id
    ensures r.Some? ==> r.value in profiles && r.value.id == id
    ensures r.Some? ==> exists i :: 0 <= i < |profiles| && profiles[i] == r.value
                                    && forall j :: 0 <= j < i ==> profiles[j].id != id
  {
    Find((p: Profile) => p.id == id, profiles)
  }

  /** The sort key of the displayed list. */
  function RecordDate(r: Record): int
  {
    r.date
  }

  /** The filter of the displayed list: a baby is selected and the record is its own. */
  function ShownFor(selectedBaby: Option<Profile>): Record -> bool
  {
    (r: Record) => selectedBaby.Some? && r.babyId == selectedBaby.value.id
  }

  /** The records the screen lists: the selected baby's records, earliest first. */
  function DisplayedRecords(records: seq<Record>, selectedBaby: Option<Profile>): (r: seq<Record>)
    ensures SortedBy(RecordDate, r)
    ensures forall x :: multiset(r)[x] ==
                        if selectedBaby.Some? && x.babyId == selectedBaby.value.id then multiset(records)[x] else 0
    ensures selectedBaby.None? ==> r == []
  {
    FilterMultiset(ShownFor(selectedBaby), records);
    if selectedBaby.None? then
      FilterNone(ShownFor(selectedBaby), records);
      []
    else
      SortBy(RecordDate, Filter(ShownFor(selectedBaby), records))
  }

  /** The records selected by date. */
  function OnDate(d: int): Record -> bool
  {
    (r: Record) => r.date == d
  }

  /** Records of the same date keep the order they have in the record list. */
  lemma {:induction false} DisplayedRecordsStable(records: seq<Record>, selectedBaby: Option<Profile>, d: int)
    requires selectedBaby.Some?
    ensures Filter(OnDate(d), DisplayedRecords(records, selectedBaby))
         == Filter(OnDate(d), Filter(ShownFor(selectedBaby), records))
  {
    SortByStable(RecordDate, d, OnDate(d), Filter(ShownFor(selectedBaby), records));
  }

  /** The state of the tracker screen. */
  class VaccinationTimeline {
    var vaccinationRecords: seq<Record>
    var babyProfiles: seq<Profile>
    var selectedBaby: Option<Profile>

    /** The selected baby, when there is one, is one of the profiles. */
    predicate SelectionListed()
      reads this
    {
      selectedBaby.Some? ==> selectedBaby.value in babyProfiles
    }

    /** The initial state: no records, no profiles, nothing selected. */
    constructor ()
      ensures vaccinationRecords == [] && babyProfiles == [] && selectedBaby == None
      ensures SelectionListed()
    {
      vaccinationRecords := [];
      babyProfiles := [];
      selectedBaby := None;
    }

    /** `addVaccinationRecord`: refused when no baby is selected; otherwise appends
        the form's record with a fresh id and the selected baby's id. */
    method AddVaccinationRecord(draft: RecordDraft, newId: string) returns (added: bool)
      modifies this
      ensures added == old(selectedBaby).Some?
      ensures !added ==> vaccinationRecords == old(vaccinationRecords)
      ensures added ==> vaccinationRecords == old(vaccinationRecords) + [Stamp(draft, newId, old(selectedBaby).value.id)]
      ensures babyProfiles == old(babyProfiles) && selectedBaby == old(selectedBaby)
    {
      if selectedBaby.None? {
        return false;
      }
      vaccinationRecords := vaccinationRecords + [Stamp(draft, newId, selectedBaby.value.id)];
      added := true;
    }

    /** `editVaccinationRecord`: every record carrying the edited id is replaced. */
    method EditVaccinationRecord(updated: Record)
      modifies this
      ensures vaccinationRecords == ReplaceById(old(vaccinationRecords), updated)
      ensures babyProfiles == old(babyProfiles) && selectedBaby == old(selectedBaby)
    {
      vaccinationRecords := ReplaceById(vaccinationRecords, updated);
    }

    /** `deleteVaccinationRecord`: every record carrying the id is removed. */
    method DeleteVaccinationRecord(id: string)
      modifies this
      ensures vaccinationRecords == RemoveById(old(vaccinationRecords), id)
      ensures babyProfiles == old(babyProfiles) && selectedBaby == old(selectedBaby)
    {
      vaccinationRecords := RemoveById(vaccinationRecords, id);
    }

    /** `handleAddBaby`: appends a new profile and selects it. */
    method HandleAddBaby(name: string, birthDate: int, newId: string)
      modifies this
      ensures babyProfiles == old(babyProfiles) + [Profile(newId, name, birthDate)]
      ensures selectedBaby == Some(Profile(newId, name, birthDate))
      ensures vaccinationRecords == old(vaccinationRecords)
      ensures SelectionListed()
    {
      var newBaby := Profile(newId, name, birthDate);
      babyProfiles := babyProfiles + [newBaby];
      selectedBaby := Some(newBaby);
    }

    /** The selection box: selects the first profile with the chosen id, or nothing. */
    method SelectBaby(value: string)
      modifies this
      ensures selectedBaby == FindProfile(babyProfiles, value)
      ensures babyProfiles == old(babyProfiles) && vaccinationRecords == old(vaccinationRecords)
      ensures SelectionListed()
    {
      selectedBaby := FindProfile(babyProfiles, value);
    }
  }

  /** A record added for the selected baby shows up in the displayed list. */
  lemma {:induction false} AddedRecordDisplayed(records: seq<Record>, baby: Profile, draft: RecordDraft, newId: string)
    ensures Stamp(draft, newId, baby.id) in DisplayedRecords(records + [Stamp(draft, newId, baby.id)], Some(baby))
  {
    var rec := Stamp(draft, newId, baby.id);
    assert multiset(records + [rec])[rec] > 0;
  }
}
