/** Value types shared by the session state and the record store. */
module Records {
  import opened Dates

  type UserId = int
  type PetId = int

  datatype Role = User | Assistant

  /** One entry of a pet's conversation log: `{"role": ..., "content": ...}`. */
  datatype Message = Message(role: Role, content: string)

  /** The values of the view key: the four views of a logged-in user, and
      "Login", which a successful registration stores there. */
  datatype View = CurrentPetPage | AddPetPage | ClinicalHistoryPage | CheckInPage | LoginPage

  datatype Gender = Male | Female

  /** The check-in conditions offered by the form, best first. */
  datatype Condition = Excellent | Good | Fair | Poor

  /** A clinical-history entry as the assistant's prompt lists it: `(date, notes)`. */
  datatype ClinicalRecord = ClinicalRecord(date: Date, notes: string)

  /** A daily check-in as the assistant's prompt lists it: `(date, condition, notes)`. */
  datatype CheckInRecord = CheckInRecord(date: Date, condition: Condition, notes: string)

  /** No element occurs twice. */
  predicate NoDuplicates<T(==)>(s: seq<T>) {
    forall i, j :: 0 <= i < j < |s| ==> s[i] != s[j]
  }
}
