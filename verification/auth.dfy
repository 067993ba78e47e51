/** The registration and login forms. */
module Auth {
  import opened Wrappers
  import opened Records
  import opened Store
  import opened SessionState

  /** What a form submission leaves behind: the session, the database, and the
      inline error shown when the submission was rejected. */
  datatype Submission<E> = Submission(session: Session, store: Db, error: Option<E>)

  datatype RegisterError = MissingCredentials | UsernameTaken

  datatype LoginError = InvalidCredentials

  /** `register_user` on submit. `newId` is the id the database assigns to the
      inserted row. An empty field is reported before a taken name. */
  function RegisterUser(s: Session, db: Db, username: string, password: string, newId: UserId)
    : (r: Submission<RegisterError>)
    ensures r.error == Some(MissingCredentials) <==> username == "" || password == ""
    ensures r.error == Some(UsernameTaken)
        <==> username != "" && password != "" && username in Usernames(db.users)
    ensures r.error.Some? ==> r.session == s && r.store == db
    ensures r.error.None? ==>
              && r.store.users == db.users + [UserRow(newId, username, password)]
              && r.store.(users := db.users) == db
              && r.session == s.(currentView := LoginPage)
  {
    if username == "" || password == "" then Submission(s, db, Some(MissingCredentials))
    else if username in Usernames(db.users) then Submission(s, db, Some(UsernameTaken))
    else
      Submission(s.(currentView := LoginPage),
                 db.(users := db.users + [UserRow(newId, username, password)]), None)
  }

  /** Registration keeps usernames unique and adds exactly one row when it succeeds. */
  lemma RegisterKeepsUsernamesUnique(s: Session, db: Db, username: string, password: string, newId: UserId)
    requires UniqueUsernames(db.users)
    ensures var r := RegisterUser(s, db, username, password, newId);
            && UniqueUsernames(r.store.users)
            && |r.store.users| == |db.users| + (if r.error.None? then 1 else 0)
  {
  }

  /** The credential check of `login_user`: the name is a key of the stored
      username-to-password dictionary and its password equals the input exactly. */
  function CredentialsMatch(users: seq<UserRow>, username: string, password: string): (ok: bool)
    ensures ok ==> username in Usernames(users) && HasAccount(users, username, password)
  {
    username in PasswordMap(users) && PasswordMap(users)[username] == password
  }

  /** `login_user` on submit. On success the user's pets are loaded in the order the query returns them (storage order in this model)
      and the first becomes the current pet; a user without pets is sent to the
      add-pet page instead and the pet fields are left as they were. */
  function LoginUser(s: Session, db: Db, username: string, password: string): (r: Submission<LoginError>)
    ensures r.store == db
    ensures r.error.None? <==> CredentialsMatch(db.users, username, password)
    ensures r.error.Some? ==> r.session == s
    ensures r.error.None? ==>
              && r.session.userLoggedIn
              && r.session.currentUser.Some?
              && (exists i :: 0 <= i < |db.users| && db.users[i].username == username
                                && db.users[i].id == r.session.currentUser.value)
              && r.session.(userLoggedIn := s.userLoggedIn, currentUser := s.currentUser, pets := s.pets,
                            currentPet := s.currentPet, currentView := s.currentView) == s
    ensures r.error.None? ==>
              var ids := PetIdsOf(db.pets, r.session.currentUser.value);
              if |ids| > 0 then
                r.session.pets == ids && r.session.currentPet == Some(ids[0])
                && r.session.currentView == CurrentPetPage
              else
                r.session.pets == s.pets && r.session.currentPet == s.currentPet
                && r.session.currentView == AddPetPage
  {
    if CredentialsMatch(db.users, username, password) then
      var user := FirstUserId(db.users, username).value;
      var ids := PetIdsOf(db.pets, user);
      var loggedIn := s.(userLoggedIn := true, currentUser := Some(user));
      if |ids| > 0 then
        Submission(loggedIn.(pets := ids, currentPet := Some(ids[0]), currentView := CurrentPetPage), db, None)
      else
        Submission(loggedIn.(currentView := AddPetPage), db, None)
    else
      Submission(s, db, Some(InvalidCredentials))
  }

  /** While usernames are unique, login succeeds exactly for a stored
      username/password pair. */
  lemma LoginIffStoredAccount(s: Session, db: Db, username: string, password: string)
    requires UniqueUsernames(db.users)
    ensures LoginUser(s, db, username, password).error.None? <==> HasAccount(db.users, username, password)
  {
  }

  /** Whoever registers can then log in with the same credentials, as the user
      just inserted. */
  lemma RegisterThenLogin(s: Session, db: Db, username: string, password: string, newId: UserId, s': Session)
    requires RegisterUser(s, db, username, password, newId).error.None?
    ensures var r := RegisterUser(s, db, username, password, newId);
            var l := LoginUser(s', r.store, username, password);
            l.error.None? && l.session.currentUser == Some(newId)
  {
  }
}
