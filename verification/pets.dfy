/** The add-pet form: breed classification, validation, the insert and the
    session updates that follow. */
module Pets {
  import opened Wrappers
  import opened Dates
  import opened Records
  import opened Store
  import opened SessionState
  import opened Remote
  import opened Auth

  /** The model `assign_pet_type` always uses, whatever the session selected. */
  const ClassifierModel: string := "mistral-large2"

  /** The labels the classifier is instructed to answer with. */
  const PetTypeLabels: set<string> := {"Large Cat", "Small Cat", "Large Dog", "Small Dog", UndefinedType}

  /** `assign_pet_type`: the completion's answer for the breed text, returned as it
      is, without checking it against the labels. */
  function AssignPetType(complete: Completion, breed: string): string {
    complete(ClassifierModel, Classify(breed))
  }

  /** The classifier always asks the fixed model about the breed text and returns
      whatever that model answers, label or not. */
  lemma ClassifierAnswerUnchecked(breed: string, answer: string)
    ensures AssignPetType((model, request) => if model == ClassifierModel && request == Classify(breed)
                                              then answer else UndefinedType, breed) == answer
  {
  }

  /** The fields of the add-pet form. */
  datatype PetForm = PetForm(name: string, breed: string, gender: Gender, birthday: Date)

  datatype AddPetError = MissingField | UnclassifiedBreed | DuplicateName

  /** The row `add_pet` inserts: the classified type and the age on `today`. */
  function NewPetRow(newId: PetId, owner: UserId, form: PetForm, petType: string, today: Date): (row: PetRow)
    ensures row.id == newId && row.userId == owner && row.petType == petType
    ensures row.name == form.name && row.breed == form.breed && row.gender == form.gender
    ensures OnOrBefore(Anniversary(form.birthday, row.age), today)
    ensures !OnOrBefore(Anniversary(form.birthday, row.age + 1), today)
    ensures row.age >= 0 <==> OnOrBefore(form.birthday, today)
  {
    PetRow(newId, owner, form.name, form.breed, petType, form.gender, Age(today, form.birthday))
  }

  /** The session after a pet was added: its id is remembered (once), it becomes
      the current pet, its three caches start empty, and the view is set to
      "Current Pet". */
  function SelectNewPet(s: Session, id: PetId): (r: Session)
    ensures id in r.pets && r.currentPet == Some(id)
    ensures NoDuplicates(s.pets) ==> NoDuplicates(r.pets)
    ensures |s.pets| <= |r.pets| && r.pets[..|s.pets|] == s.pets
    ensures r.pets == if id in s.pets then s.pets else s.pets + [id]
    ensures r.messages == s.messages[id := []]
    ensures r.clinicalHistory == s.clinicalHistory[id := []]
    ensures r.dailyCheckIns == s.dailyCheckIns[id := []]
    ensures r.currentView == CurrentPetPage
    ensures r.(pets := s.pets, currentPet := s.currentPet, messages := s.messages,
               clinicalHistory := s.clinicalHistory, dailyCheckIns := s.dailyCheckIns,
               currentView := s.currentView) == s
  {
    var pets := if id in s.pets then s.pets else s.pets + [id];
    assert pets[..|s.pets|] == s.pets;
    s.(pets := pets, currentPet := Some(id), messages := s.messages[id := []],
       clinicalHistory := s.clinicalHistory[id := []], dailyCheckIns := s.dailyCheckIns[id := []],
       currentView := CurrentPetPage)
  }

  /** `add_pet` on submit, for the logged-in `owner`. `newId` is the id the database
      assigns to the inserted row; the id the session keeps is the one read back by
      owner and name, newest first. */
  function AddPet(s: Session, db: Db, complete: Completion, form: PetForm, today: Date, newId: PetId)
    : (r: Submission<AddPetError>)
    requires s.currentUser.Some?
    ensures r.error == Some(MissingField) <==> form.name == "" || form.breed == ""
    ensures r.error == Some(UnclassifiedBreed)
        <==> form.name != "" && form.breed != "" && AssignPetType(complete, form.breed) == UndefinedType
    ensures r.error == Some(DuplicateName)
        <==> && form.name != "" && form.breed != "" && AssignPetType(complete, form.breed) != UndefinedType
             && form.name in PetNamesOf(db.pets, s.currentUser.value)
    ensures r.error.Some? ==> r.session == s && r.store == db
    ensures r.error.None? ==>
              var row := NewPetRow(newId, s.currentUser.value, form, AssignPetType(complete, form.breed), today);
              && r.store == db.(pets := db.pets + [row])
              && LatestPetId(r.store.pets, row.userId, row.name) == Some(newId)
              && r.session == SelectNewPet(s, newId)
  {
    var owner := s.currentUser.value;
    if form.name == "" || form.breed == "" then Submission(s, db, Some(MissingField))
    else
      var petType := AssignPetType(complete, form.breed);
      if petType == UndefinedType then Submission(s, db, Some(UnclassifiedBreed))
      else if form.name in PetNamesOf(db.pets, owner) then Submission(s, db, Some(DuplicateName))
      else
        var row := NewPetRow(newId, owner, form, petType, today);
        var store := db.(pets := db.pets + [row]);
        LatestPetIdOfNewName(db.pets, row);
        match LatestPetId(store.pets, owner, form.name)
        case Some(insertedId) => Submission(SelectNewPet(s, insertedId), store, None)
        case None => Submission(s, store, None)
  }

  /** Adding a pet never gives an owner two pets with the same name. */
  lemma AddPetKeepsNamesUnique(s: Session, db: Db, complete: Completion, form: PetForm, today: Date, newId: PetId)
    requires s.currentUser.Some?
    requires UniquePetNames(db.pets)
    ensures UniquePetNames(AddPet(s, db, complete, form, today, newId).store.pets)
  {
  }

  /** On success the new pet is listed exactly once in the session, provided the
      list had no repeats before. */
  lemma AddPetListsNewPetOnce(s: Session, db: Db, complete: Completion, form: PetForm, today: Date, newId: PetId)
    requires s.currentUser.Some?
    requires NoDuplicates(s.pets)
    requires AddPet(s, db, complete, form, today, newId).error.None?
    ensures var pets := AddPet(s, db, complete, form, today, newId).session.pets;
            exists i :: 0 <= i < |pets| && pets[i] == newId && forall j :: 0 <= j < |pets| && pets[j] == newId ==> j == i
  {
  }

  /** The classifier's answer is not checked against its labels: any answer other
      than "Undefined", even one outside the labels, is stored as the pet's type. */
  lemma UnlabelledTypeIsStored(s: Session, db: Db, complete: Completion, form: PetForm, today: Date, newId: PetId)
    requires s.currentUser.Some?
    requires form.name != "" && form.breed != ""
    requires form.name !in PetNamesOf(db.pets, s.currentUser.value)
    requires AssignPetType(complete, form.breed) !in PetTypeLabels
    ensures var r := AddPet(s, db, complete, form, today, newId);
            && r.error.None?
            && r.store.pets[|r.store.pets| - 1].petType !in PetTypeLabels
  {
  }
}
