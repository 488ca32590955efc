/** The two kinds of user data the tracker keeps: vaccination records and baby
    profiles. Dates are instants given as integer timestamps. */
module Records {
  import opened Seqs

  /** One administered vaccination; `babyId` refers to the profile it belongs to. */
  datatype Record = Record(
    vaccineName: string,
    date: int,
    batchNumber: Option<string>,
    notes: Option<string>,
    id: string,
    babyId: string)

  /** A record as the entry form submits it, before an id and a baby are attached. */
  datatype RecordDraft = RecordDraft(
    vaccineName: string,
    date: int,
    batchNumber: Option<string>,
    notes: Option<string>)

  /** A baby whose vaccinations are tracked. */
  datatype Profile = Profile(id: string, name: string, birthDate: int)
}
