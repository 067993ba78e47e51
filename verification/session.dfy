/** The per-browser session state, its initialisation and the two logout paths. */
module SessionState {
  import opened Wrappers
  import opened Records

  /** The completion model selected when a session starts. */
  const DefaultModel: string := "mistral-large2"

  /** The session once every key is present. `messages`, `clinicalHistory` and
      `dailyCheckIns` are per-pet caches keyed by pet id. */
  datatype Session = Session(
    userLoggedIn: bool,
    currentUser: Option<UserId>,
    pets: seq<PetId>,
    currentPet: Option<PetId>,
    messages: map<PetId, seq<Message>>,
    clinicalHistory: map<PetId, seq<ClinicalRecord>>,
    dailyCheckIns: map<PetId, seq<CheckInRecord>>,
    currentView: View,
    modelName: string)

  /** The value each key receives when it is first created. */
  const Defaults: Session :=
    Session(false, None, [], None, map[], map[], map[], CurrentPetPage, DefaultModel)

  /** The session store as a dictionary that may lack keys: `None` means the key is
      absent, `Some(v)` that it holds `v` (which may itself be Python's `None`). */
  datatype RawSession = RawSession(
    userLoggedIn: Option<bool>,
    currentUser: Option<Option<UserId>>,
    pets: Option<seq<PetId>>,
    currentPet: Option<Option<PetId>>,
    messages: Option<map<PetId, seq<Message>>>,
    clinicalHistory: Option<map<PetId, seq<ClinicalRecord>>>,
    dailyCheckIns: Option<map<PetId, seq<CheckInRecord>>>,
    currentView: Option<View>,
    modelName: Option<string>)

  /** A fresh browser session: no key set yet. */
  const EmptyRaw: RawSession := RawSession(None, None, None, None, None, None, None, None, None)

  /** Every key is present. */
  predicate Complete(raw: RawSession) {
    && raw.userLoggedIn.Some? && raw.currentUser.Some? && raw.pets.Some?
    && raw.currentPet.Some? && raw.messages.Some? && raw.clinicalHistory.Some?
    && raw.dailyCheckIns.Some? && raw.currentView.Some? && raw.modelName.Some?
  }

  /** A full session seen as a dictionary. */
  function Stored(s: Session): (raw: RawSession)
    ensures Complete(raw)
  {
    RawSession(Some(s.userLoggedIn), Some(s.currentUser), Some(s.pets), Some(s.currentPet),
               Some(s.messages), Some(s.clinicalHistory), Some(s.dailyCheckIns),
               Some(s.currentView), Some(s.modelName))
  }

  /** Each key that `raw` holds has the same value in `s`. */
  predicate KeepsPresent(raw: RawSession, s: Session) {
    && (raw.userLoggedIn.Some? ==> s.userLoggedIn == raw.userLoggedIn.value)
    && (raw.currentUser.Some? ==> s.currentUser == raw.currentUser.value)
    && (raw.pets.Some? ==> s.pets == raw.pets.value)
    && (raw.currentPet.Some? ==> s.currentPet == raw.currentPet.value)
    && (raw.messages.Some? ==> s.messages == raw.messages.value)
    && (raw.clinicalHistory.Some? ==> s.clinicalHistory == raw.clinicalHistory.value)
    && (raw.dailyCheckIns.Some? ==> s.dailyCheckIns == raw.dailyCheckIns.value)
    && (raw.currentView.Some? ==> s.currentView == raw.currentView.value)
    && (raw.modelName.Some? ==> s.modelName == raw.modelName.value)
  }

  /** Each key that `raw` lacks holds its default in `s`. */
  predicate DefaultsMissing(raw: RawSession, s: Session) {
    && (raw.userLoggedIn.None? ==> s.userLoggedIn == Defaults.userLoggedIn)
    && (raw.currentUser.None? ==> s.currentUser == Defaults.currentUser)
    && (raw.pets.None? ==> s.pets == Defaults.pets)
    && (raw.currentPet.None? ==> s.currentPet == Defaults.currentPet)
    && (raw.messages.None? ==> s.messages == Defaults.messages)
    && (raw.clinicalHistory.None? ==> s.clinicalHistory == Defaults.clinicalHistory)
    && (raw.dailyCheckIns.None? ==> s.dailyCheckIns == Defaults.dailyCheckIns)
    && (raw.currentView.None? ==> s.currentView == Defaults.currentView)
    && (raw.modelName.None? ==> s.modelName == Defaults.modelName)
  }

  /** `init_user_session`: create each missing key with its default and leave
      every existing key alone. */
  function InitUserSession(raw: RawSession): (s: Session)
    ensures KeepsPresent(raw, s)
    ensures DefaultsMissing(raw, s)
  {
    Session(raw.userLoggedIn.GetOr(Defaults.userLoggedIn),
            raw.currentUser.GetOr(Defaults.currentUser),
            raw.pets.GetOr(Defaults.pets),
            raw.currentPet.GetOr(Defaults.currentPet),
            raw.messages.GetOr(Defaults.messages),
            raw.clinicalHistory.GetOr(Defaults.clinicalHistory),
            raw.dailyCheckIns.GetOr(Defaults.dailyCheckIns),
            raw.currentView.GetOr(Defaults.currentView),
            raw.modelName.GetOr(Defaults.modelName))
  }

  /** Initialising a session that already has every key changes nothing. */
  lemma InitOfStored(s: Session)
    ensures InitUserSession(Stored(s)) == s
  {
  }

  /** Initialising a fresh session yields exactly the defaults. */
  lemma InitOfEmpty()
    ensures InitUserSession(EmptyRaw) == Defaults
  {
  }

  /** Running the initialisation again on every later page render is harmless. */
  lemma InitIdempotent(raw: RawSession)
    ensures InitUserSession(Stored(InitUserSession(raw))) == InitUserSession(raw)
  {
  }

  /** Signed out: every field but the model choice holds its default. */
  predicate SignedOut(s: Session) {
    s == Defaults.(modelName := s.modelName)
  }

  /** `logout`, the sidebar callback: assigns the defaults to every key except the
      model choice. */
  function Logout(s: Session): (r: Session)
    ensures SignedOut(r)
    ensures r.modelName == s.modelName
  {
    s.(userLoggedIn := false, currentUser := None, pets := [], messages := map[],
       clinicalHistory := map[], dailyCheckIns := map[], currentPet := None,
       currentView := CurrentPetPage)
  }

  /** Logging out twice is the same as logging out once. */
  lemma LogoutIdempotent(s: Session)
    ensures Logout(Logout(s)) == Logout(s)
  {
  }

  /** Logging out returns to a fresh session, except that the model choice stays. */
  lemma LogoutIsFreshSession(s: Session)
    ensures Logout(s) == InitUserSession(EmptyRaw).(modelName := s.modelName)
  {
  }

  /** Assigns `d` to a key only when it is present. */
  function ResetIfPresent<T>(o: Option<T>, d: T): (r: Option<T>)
    ensures r.Some? <==> o.Some?
    ensures r.Some? ==> r.value == d
  {
    if o.Some? then Some(d) else None
  }

  /** `handle_logout`, the logout button of the main page: resets only those of the
      seven user keys that are present, then sets the view. */
  function HandleLogout(raw: RawSession): (r: RawSession)
    ensures r.currentView == Some(CurrentPetPage)
    ensures r.modelName == raw.modelName
    ensures r.userLoggedIn == ResetIfPresent(raw.userLoggedIn, false)
    ensures r.currentUser == ResetIfPresent(raw.currentUser, None)
    ensures r.pets == ResetIfPresent(raw.pets, [])
    ensures r.currentPet == ResetIfPresent(raw.currentPet, None)
    ensures r.messages == ResetIfPresent(raw.messages, map[])
    ensures r.clinicalHistory == ResetIfPresent(raw.clinicalHistory, map[])
    ensures r.dailyCheckIns == ResetIfPresent(raw.dailyCheckIns, map[])
  {
    raw.(userLoggedIn := ResetIfPresent(raw.userLoggedIn, false),
         currentUser := ResetIfPresent(raw.currentUser, None),
         pets := ResetIfPresent(raw.pets, []),
         messages := ResetIfPresent(raw.messages, map[]),
         clinicalHistory := ResetIfPresent(raw.clinicalHistory, map[]),
         dailyCheckIns := ResetIfPresent(raw.dailyCheckIns, map[]),
         currentPet := ResetIfPresent(raw.currentPet, None),
         currentView := Some(CurrentPetPage))
  }

  /** On an initialised session the two logout paths agree. */
  lemma HandleLogoutAgreesWithLogout(s: Session)
    ensures HandleLogout(Stored(s)) == Stored(Logout(s))
  {
  }

  /** The logout button is idempotent too. */
  lemma HandleLogoutIdempotent(raw: RawSession)
    ensures HandleLogout(HandleLogout(raw)) == HandleLogout(raw)
  {
  }
}
