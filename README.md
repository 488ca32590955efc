# Baby vaccination tracker — Dafny model

This is a model of the core of a baby vaccination tracker, a Next.js/React application that keeps
vaccination records for one or more baby profiles.

The core has three parts:

- **Schedule.** A fixed schedule of 19 recommended vaccinations, each with an age window in months,
  and a lookup of the entries whose window contains a given age.
- **Classifier.** The overdue/upcoming classifier. An entry is overdue when its window has closed
  and the selected baby has no record of that vaccine. It is upcoming when the window has not
  opened yet and, again, there is no record.
- **Tracker screen.** It holds the record list, the profile list and the selected profile. It allows
  adding, editing and deleting records, adding a baby, and selecting a baby by id. It lists the
  selected baby's records ordered by date.

The schedule and the classifier are pure: they are modelled as functions, with lemmas about them.
The tracker's state is a class, `Timeline.VaccinationTimeline`, whose methods replace its sequence
fields the way the component's state setters do. Each method states its whole new state in terms of
functions whose properties are proved separately.

JavaScript's array methods are modelled in `Seqs`:

- `filter` becomes `Filter`.
- `find` becomes `Find`.
- The stable comparator `sort` becomes `SortBy`, an insertion sort proved sorted, a permutation and
  stable.

The test `!records.find(...)` holds exactly when no record matches, because records are objects and
objects are always truthy. The lookup reads a constant table and changes nothing, which Dafny
guarantees because `ScheduleForAge` is a function.

Ages in months and fresh ids are inputs. The source computes them from the clock, with
`differenceInMonths(new Date(), birthDate)` for the age and `Date.now()` for fresh ids. Record dates
and birth dates come from the forms' date pickers; they are integer timestamps here.

Files:

- `seqs.dfy`: `Option`, `Filter`, `Find`, `Subseq`, `SortBy` and their lemmas.
- `records.dfy`: the record, the record draft and the baby profile.
- `schedule.dfy`: the table and the lookup.
- `status_display.dfy`: the classifier of the status display component.
- `timeline.dfy`: the tracker screen, with its own copy of the classifier, the list operations, the
  state class and the displayed list.

## Model

| member | source | states |
|---|---|---|
| Seqs.Filter | src/components/VaccinationStatusDisplay.tsx:24-26 | an element is kept iff it is in the input and satisfies the predicate; the result is never longer |
| Seqs.Find | src/components/VaccinationStatusDisplay.tsx:29-31 | returns nothing iff no element satisfies the predicate, otherwise the first element that does |
| Seqs.SortBy | src/components/VaccinationTimeline.tsx:435 | the result is a permutation of the input (same multiset) in nondecreasing key order |
| Seqs.SortByStable | src/components/VaccinationTimeline.tsx:435 | elements with equal keys keep their input order (the sort is stable) |
| Schedule.ScheduleForAge | src/services/vaccination-schedule.ts:135-137 | an entry is in the result iff it is in the table and min <= age <= max, both bounds inclusive; the result is a subsequence of the table, so at most 19 long |
| Schedule.TableWindowsWellFormed | src/services/vaccination-schedule.ts:13-128 | the table has 19 entries and each window satisfies 0 <= min < max |
| Schedule.TableNamesDistinct | src/services/vaccination-schedule.ts:13-128 | no two table entries share a vaccine name |
| Schedule.TableSortedByMinAge | src/services/vaccination-schedule.ts:13-128 | the table is in nondecreasing order of window start |
| Schedule.ScheduleForAgeSorted | src/services/vaccination-schedule.ts:13-137 | every lookup result is in nondecreasing order of window start |
| Schedule.ScheduleAtBirth | src/services/vaccination-schedule.ts:14-19 | at age 0 the lookup returns exactly the first entry, "Hepatit B - 1" |
| Schedule.ScheduleAtOneMonth | src/services/vaccination-schedule.ts:14-31 | at age 1 the lookup returns exactly "Hepatit B - 1", "Hepatit B - 2" and "BCG (Verem)" |
| Schedule.ScheduleGaps | src/services/vaccination-schedule.ts:13-137 | for ages 31-47, 51-155, above 168 and below 0 the lookup is empty |
| StatusDisplay.NotRecorded | src/components/VaccinationStatusDisplay.tsx:29-31 | true iff no record has both the vaccine name and the baby id |
| StatusDisplay.CalculateOverdue | src/components/VaccinationStatusDisplay.tsx:21-33 | empty with no baby; otherwise an entry is listed iff it is in the schedule, its window closed before the age and the baby has no record of it; such an entry occurs as often as in the schedule; the list is a subsequence of the schedule |
| StatusDisplay.CalculateUpcoming | src/components/VaccinationStatusDisplay.tsx:35-47 | empty with no baby; otherwise an entry is listed iff it is in the schedule, its window opens after the age and the baby has no record of it; such an entry occurs as often as in the schedule; the list is a subsequence of the schedule |
| StatusDisplay.CurrentEntryInNeither | src/components/VaccinationStatusDisplay.tsx:25-39 | an entry whose window contains the age is in neither list |
| StatusDisplay.OverdueUpcomingDisjoint | src/components/VaccinationStatusDisplay.tsx:25-39 | when every window has min <= max, no entry is both overdue and upcoming |
| StatusDisplay.RecordRemovesEntry | src/components/VaccinationStatusDisplay.tsx:28-46 | appending a record for the selected baby removes every entry with that vaccine name from both lists |
| StatusDisplay.OtherBabiesIgnored | src/components/VaccinationStatusDisplay.tsx:29-45 | dropping all records of other babies changes neither list |
| StatusDisplay.MoreRecordsShrinkLists | src/components/VaccinationStatusDisplay.tsx:28-46 | with a larger record set each list is a subsequence of the list for the smaller set |
| Timeline.StatusOverdue | src/components/VaccinationTimeline.tsx:155-169 | the screen's own overdue calculator equals the status display's for every input |
| Timeline.StatusUpcoming | src/components/VaccinationTimeline.tsx:171-185 | the screen's own upcoming calculator equals the status display's for every input |
| Timeline.StoredLookupStatus | src/components/VaccinationTimeline.tsx:153-185 | with the schedule state looked up at one age (lines 304-306) and classified at the age the panel computes (line 153): an entry is overdue iff its window contained the lookup age, closed before the render age and is unrecorded; upcoming iff its window contained the lookup age, opens after the render age and is unrecorded |
| Timeline.StaleLookupExample | src/components/VaccinationTimeline.tsx:153-168 | a lookup made at 1 month and classified at 2 months lists "Hepatit B - 1" as overdue |
| Timeline.StaleLookupAheadExample | src/components/VaccinationTimeline.tsx:153-184 | a lookup made at 50 months and classified at 1 month lists "KKK - 2" as upcoming |
| Timeline.LookupScheduleHidesStatus | src/components/VaccinationTimeline.tsx:302-306 | whenever the schedule state is the lookup for the age the panel computes (what the screen passes at line 429), both lists are empty whatever the records |
| Timeline.IntendedOverdue | src/components/VaccinationTimeline.tsx:158-168 | against the whole table: an entry is listed iff a baby is selected, its window closed before the age and the baby has no record of it |
| Timeline.IntendedUpcoming | src/components/VaccinationTimeline.tsx:174-184 | against the whole table: an entry is listed iff a baby is selected, its window opens after the age and the baby has no record of it |
| Timeline.MissedDoseExample | src/components/VaccinationTimeline.tsx:155-168 | at 5 months with no records, "Hepatit B - 1" is overdue against the whole table but the screen's overdue list is empty |
| Timeline.AheadDoseExample | src/components/VaccinationTimeline.tsx:171-184 | at 5 months with no records, "KKK - 2" is upcoming against the whole table but the screen's upcoming list is empty |
| Timeline.ReplaceById | src/components/VaccinationTimeline.tsx:338-342 | same length; each position holds the updated record if its id matches, its old record otherwise |
| Timeline.ReplaceByIdIdempotent | src/components/VaccinationTimeline.tsx:338-342 | applying the same edit twice equals applying it once |
| Timeline.ReplaceByIdAbsent | src/components/VaccinationTimeline.tsx:338-342 | an edit whose id matches no record leaves the list unchanged |
| Timeline.RemoveById | src/components/VaccinationTimeline.tsx:351 | a record remains iff it was there and has another id; every other record keeps its count of occurrences and the result is a subsequence of the original (order kept) |
| Timeline.FindProfile | src/components/VaccinationTimeline.tsx:409-410 | nothing iff no profile has the id, otherwise the first profile with that id |
| Timeline.DisplayedRecords | src/components/VaccinationTimeline.tsx:433-435 | sorted by date, and a permutation of exactly the selected baby's records; empty with no baby |
| Timeline.DisplayedRecordsStable | src/components/VaccinationTimeline.tsx:433-435 | records with the same date are listed in record-list order |
| Timeline.AddedRecordDisplayed | src/components/VaccinationTimeline.tsx:329-330 | a record stamped with the selected baby's id and appended is among the displayed records |
| Timeline.VaccinationTimeline.constructor | src/components/VaccinationTimeline.tsx:232-234 | no records, no profiles, nothing selected |
| Timeline.VaccinationTimeline.AddVaccinationRecord | src/components/VaccinationTimeline.tsx:320-335 | refused and nothing changes with no selected baby; otherwise exactly one record with the draft's fields, the fresh id and the baby's id is appended; profiles and selection unchanged |
| Timeline.VaccinationTimeline.EditVaccinationRecord | src/components/VaccinationTimeline.tsx:337-348 | the record list becomes ReplaceById of the old one; profiles and selection unchanged |
| Timeline.VaccinationTimeline.DeleteVaccinationRecord | src/components/VaccinationTimeline.tsx:350-356 | the record list becomes RemoveById of the old one; profiles and selection unchanged |
| Timeline.VaccinationTimeline.HandleAddBaby | src/components/VaccinationTimeline.tsx:363-373 | one profile with the fresh id, name and birth date is appended and selected; earlier profiles and records unchanged |
| Timeline.VaccinationTimeline.SelectBaby | src/components/VaccinationTimeline.tsx:408-411 | the selection becomes the first profile with the chosen id, or nothing; lists unchanged; the selection is listed |

## Left out

- Persistence in `localStorage` and JSON (de)serialisation (VaccinationTimeline.tsx:241-299): this is I/O. It includes loading the selected baby separately from the profile list, so the persisted selection need not be a listed profile.
- The effect that reloads the record list from storage whenever the selection changes (VaccinationTimeline.tsx:274-292): this is I/O. `SelectBaby` and `HandleAddBaby` keep the in-memory records unchanged.
- The clock: the age from `differenceInMonths(new Date(), …)` and ids from `Date.now()` are parameters. Dates are modelled as integer timestamps.
- The asynchronous wrapper around the lookup (VaccinationTimeline.tsx:302-318): the lookup is a server action, refreshed only when the selection changes, that resolves later or fails into an error toast. The model makes it a plain function; the schedule state it leaves behind is an explicit lookup age (`Timeline.StoredLookupStatus`), and the timing of its updates is not modelled. With no baby selected the screen's schedule is empty, which the classifier turns into empty lists anyway.
- Toasts, dialogs, the rendering and React's state/effect wiring: this is UI.
- The form validation rules enforced by the zod library: a baby name of at least 2 characters and a required date. `HandleAddBaby` accepts any name.
- `src/components/VaccinationRecordForm.tsx`, a UI form, is not part of this model.
- `src/ai/flows/generate-vaccination-reminder.ts`, a call to an external generative model, is not part of this model.

## Findings

| source | as written | input that shows it | evidently intended | confidence | as-written member | corrected member |
|---|---|---|---|---|---|---|
| src/components/VaccinationTimeline.tsx:302-306, 429, 158-161 | The status panel is given the lookup result for the baby's age at selection time. Whenever that is still the age the panel computes, every entry has a window containing the age, so both lists are empty. They list entries only when the stored lookup is stale (a month boundary passed, or a new lookup is pending or failed), and then only entries whose window contained the old age. | A baby of 5 months with no records: "Hepatit B - 1" (window 0-1) is missed but not listed. | Classify against the entire schedule, as the comment at line 158 says. | high; not executed | Timeline.LookupScheduleHidesStatus, Timeline.StoredLookupStatus, Timeline.MissedDoseExample | Timeline.IntendedOverdue, Timeline.IntendedUpcoming |
