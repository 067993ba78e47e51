/** The four database tables the app reads and writes, in storage order, and the
    queries it runs against them. */
module Store {
  import opened Wrappers
  import opened Dates
  import opened Records

  datatype UserRow = UserRow(id: UserId, username: string, password: string)

  datatype PetRow = PetRow(id: PetId, userId: UserId, name: string, breed: string,
                           petType: string, gender: Gender, age: int)

  datatype ClinicalRow = ClinicalRow(petId: PetId, date: Date, notes: string)

  datatype CheckInRow = CheckInRow(petId: PetId, date: Date, condition: Condition, notes: string)

  datatype Db = Db(users: seq<UserRow>, pets: seq<PetRow>,
                   clinical: seq<ClinicalRow>, checkIns: seq<CheckInRow>)

  // ---------------------------------------------------------------- users

  /** `SELECT username FROM users`, as a set of names. */
  function Usernames(users: seq<UserRow>): (names: set<string>)
    ensures forall u :: u in names <==> exists i :: 0 <= i < |users| && users[i].username == u
  {
    set r | r in users :: r.username
  }

  /** No two user rows share a username. */
  predicate UniqueUsernames(users: seq<UserRow>) {
    forall i, j :: 0 <= i < j < |users| ==> users[i].username != users[j].username
  }

  /** Some stored row pairs this username with this password. */
  predicate HasAccount(users: seq<UserRow>, username: string, password: string) {
    exists i :: 0 <= i < |users| && users[i].username == username && users[i].password == password
  }

  /** The login form's `{USERNAME: PASSWORD}` dictionary built from
      `SELECT username, password FROM users`: a later row overrides an earlier one
      with the same name. */
  function PasswordMap(users: seq<UserRow>): (m: map<string, string>)
    ensures m.Keys == Usernames(users)
    ensures forall u :: u in m ==> HasAccount(users, u, m[u])
    decreases |users|
  {
    if users == [] then map[]
    else
      var prefix := users[..|users| - 1];
      var last := users[|users| - 1];
      assert users == prefix + [last];
      assert Usernames(users) == Usernames(prefix) + {last.username};
      var rest := PasswordMap(prefix);
      var m := rest[last.username := last.password];
      assert forall u :: u in m ==> HasAccount(users, u, m[u]) by {
        forall u | u in m
          ensures HasAccount(users, u, m[u])
        {
          if u == last.username {
            assert users[|users| - 1] == last;
          } else {
            var k :| 0 <= k < |prefix| && prefix[k].username == u && prefix[k].password == rest[u];
            assert users[k] == prefix[k];
          }
        }
      }
      m
  }

  /** Whatever rows came before, the dictionary keeps the password of the row
      appended last. */
  lemma PasswordMapLastWins(users: seq<UserRow>, row: UserRow)
    ensures row.username in PasswordMap(users + [row])
    ensures PasswordMap(users + [row])[row.username] == row.password
  {
  }

  /** With unique usernames the dictionary holds exactly the stored pairs. */
  lemma PasswordMapHoldsAccounts(users: seq<UserRow>, username: string, password: string)
    requires UniqueUsernames(users)
    ensures (username in PasswordMap(users) && PasswordMap(users)[username] == password)
        <==> HasAccount(users, username, password)
  {
  }

  /** `SELECT ID FROM users WHERE username = ?` and its first row. */
  function FirstUserId(users: seq<UserRow>, username: string): (id: Option<UserId>)
    ensures id.Some? <==> username in Usernames(users)
    ensures id.Some? ==> exists i :: 0 <= i < |users| && users[i].username == username && users[i].id == id.value
    decreases |users|
  {
    if users == [] then None
    else
      assert Usernames(users) == {users[0].username} + Usernames(users[1..]) by {
        assert users == [users[0]] + users[1..];
      }
      if users[0].username == username then Some(users[0].id)
      else
        var rest := FirstUserId(users[1..], username);
        assert rest.Some? ==> exists i :: 0 <= i < |users| && users[i].username == username && users[i].id == rest.value by {
          if rest.Some? {
            var k :| 0 <= k < |users[1..]| && users[1..][k].username == username && users[1..][k].id == rest.value;
            assert users[k + 1] == users[1..][k];
          }
        }
        rest
  }

  /** A row appended under a name not yet stored is the one the id lookup finds. */
  lemma FirstUserIdOfNewName(users: seq<UserRow>, row: UserRow)
    requires row.username !in Usernames(users)
    ensures FirstUserId(users + [row], row.username) == Some(row.id)
  {
  }

  // ----------------------------------------------------------------- pets

  /** `SELECT id FROM pets WHERE user_id = ?`. The query has no ORDER BY; the model
      returns the rows in storage order. */
  function PetIdsOf(pets: seq<PetRow>, owner: UserId): (ids: seq<PetId>)
    ensures |ids| <= |pets|
    ensures forall id :: id in ids <==> exists i :: 0 <= i < |pets| && pets[i].userId == owner && pets[i].id == id
    decreases |pets|
  {
    if pets == [] then []
    else
      var rest := PetIdsOf(pets[1..], owner);
      assert forall id :: id in rest <==> exists i :: 1 <= i < |pets| && pets[i].userId == owner && pets[i].id == id by {
        forall id
          ensures id in rest <==> exists i :: 1 <= i < |pets| && pets[i].userId == owner && pets[i].id == id
        {
          if id in rest {
            var k :| 0 <= k < |pets[1..]| && pets[1..][k].userId == owner && pets[1..][k].id == id;
            assert pets[k + 1] == pets[1..][k];
          }
          if exists i :: 1 <= i < |pets| && pets[i].userId == owner && pets[i].id == id {
            var i :| 1 <= i < |pets| && pets[i].userId == owner && pets[i].id == id;
            assert pets[1..][i - 1] == pets[i];
          }
        }
      }
      if pets[0].userId == owner then [pets[0].id] + rest else rest
  }

  /** `SELECT name FROM pets WHERE user_id = ?`, as a set of names. */
  function PetNamesOf(pets: seq<PetRow>, owner: UserId): (names: set<string>)
    ensures forall n :: n in names <==> exists i :: 0 <= i < |pets| && pets[i].userId == owner && pets[i].name == n
  {
    set r | r in pets && r.userId == owner :: r.name
  }

  /** No owner has two pets with the same name. */
  predicate UniquePetNames(pets: seq<PetRow>) {
    forall i, j :: 0 <= i < j < |pets| && pets[i].userId == pets[j].userId ==> pets[i].name != pets[j].name
  }

  /** Some row has this owner, this name and this id. */
  predicate HasPetRow(pets: seq<PetRow>, owner: UserId, name: string, id: PetId) {
    exists i :: 0 <= i < |pets| && pets[i].userId == owner && pets[i].name == name && pets[i].id == id
  }

  /** A row matches an extended table when it matches the old table or is the new row. */
  lemma HasPetRowAppend(pets: seq<PetRow>, row: PetRow, owner: UserId, name: string, id: PetId)
    ensures HasPetRow(pets + [row], owner, name, id)
        <==> HasPetRow(pets, owner, name, id) || (row.userId == owner && row.name == name && row.id == id)
  {
    var all := pets + [row];
    if HasPetRow(all, owner, name, id) {
      var i :| 0 <= i < |all| && all[i].userId == owner && all[i].name == name && all[i].id == id;
      if i < |pets| {
        assert pets[i] == all[i];
      }
    }
    if HasPetRow(pets, owner, name, id) {
      var i :| 0 <= i < |pets| && pets[i].userId == owner && pets[i].name == name && pets[i].id == id;
      assert all[i] == pets[i];
    }
    assert all[|pets|] == row;
  }

  /** The ids of the rows with this owner and this name, in storage order. */
  function MatchingPetIds(pets: seq<PetRow>, owner: UserId, name: string): (ids: seq<PetId>)
    ensures |ids| == 0 <==> name !in PetNamesOf(pets, owner)
    ensures forall id :: id in ids <==> HasPetRow(pets, owner, name, id)
    decreases |pets|
  {
    if pets == [] then []
    else
      var prefix := pets[..|pets| - 1];
      var last := pets[|pets| - 1];
      assert pets == prefix + [last];
      assert PetNamesOf(pets, owner) == PetNamesOf(prefix, owner) + (if last.userId == owner then {last.name} else {});
      var rest := MatchingPetIds(prefix, owner, name);
      var ids := rest + (if last.userId == owner && last.name == name then [last.id] else []);
      forall id
        ensures id in ids <==> HasPetRow(pets, owner, name, id)
      {
        HasPetRowAppend(prefix, last, owner, name, id);
      }
      ids
  }

  /** The largest element of a non-empty sequence. */
  function MaxOf(s: seq<int>): (m: int)
    requires |s| > 0
    ensures m in s
    ensures forall x :: x in s ==> x <= m
  {
    if |s| == 1 then s[0]
    else
      var rest := MaxOf(s[1..]);
      assert s == [s[0]] + s[1..];
      if s[0] >= rest then s[0] else rest
  }

  /** `SELECT id FROM pets WHERE user_id = ? AND name = ? ORDER BY id DESC LIMIT 1`. */
  function LatestPetId(pets: seq<PetRow>, owner: UserId, name: string): (id: Option<PetId>)
    ensures id.Some? <==> name in PetNamesOf(pets, owner)
    ensures id.Some? ==> id.value in MatchingPetIds(pets, owner, name)
    ensures id.Some? ==> forall x :: x in MatchingPetIds(pets, owner, name) ==> x <= id.value
  {
    var ids := MatchingPetIds(pets, owner, name);
    if ids == [] then None else Some(MaxOf(ids))
  }

  /** Right after a row is inserted under a name its owner did not use yet, the
      id lookup by owner and name returns that row's id. */
  lemma LatestPetIdOfNewName(pets: seq<PetRow>, row: PetRow)
    requires row.name !in PetNamesOf(pets, row.userId)
    ensures LatestPetId(pets + [row], row.userId, row.name) == Some(row.id)
  {
  }

  /** `SELECT name, breed, type, gender, age FROM pets WHERE id = ?` and its first row. */
  function PetInfo(pets: seq<PetRow>, id: PetId): (info: Option<PetRow>)
    ensures info.Some? <==> exists i :: 0 <= i < |pets| && pets[i].id == id
    ensures info.Some? ==> info.value in pets && info.value.id == id
    decreases |pets|
  {
    if pets == [] then None
    else if pets[0].id == id then Some(pets[0])
    else
      var rest := PetInfo(pets[1..], id);
      assert (exists i :: 0 <= i < |pets| && pets[i].id == id) ==> rest.Some? by {
        if exists i :: 0 <= i < |pets| && pets[i].id == id {
          var i :| 0 <= i < |pets| && pets[i].id == id;
          assert pets[1..][i - 1] == pets[i];
        }
      }
      rest
  }

  // ------------------------------------------------- clinical and check-ins

  /** `SELECT date, notes FROM clinical_history WHERE pet_id = ?`. The query has no
      ORDER BY; the model returns the rows in storage order. */
  function ClinicalFor(rows: seq<ClinicalRow>, pet: PetId): (entries: seq<ClinicalRecord>)
    ensures |entries| <= |rows|
    ensures forall e :: e in entries ==> ClinicalRow(pet, e.date, e.notes) in rows
    ensures forall i :: 0 <= i < |rows| && rows[i].petId == pet ==> ClinicalRecord(rows[i].date, rows[i].notes) in entries
    decreases |rows|
  {
    if rows == [] then []
    else
      var prefix := rows[..|rows| - 1];
      var last := rows[|rows| - 1];
      assert rows == prefix + [last];
      var rest := ClinicalFor(prefix, pet);
      var entries := rest + (if last.petId == pet then [ClinicalRecord(last.date, last.notes)] else []);
      assert forall i :: 0 <= i < |rows| && rows[i].petId == pet ==> ClinicalRecord(rows[i].date, rows[i].notes) in entries by {
        forall i | 0 <= i < |rows| && rows[i].petId == pet
          ensures ClinicalRecord(rows[i].date, rows[i].notes) in entries
        {
          if i < |prefix| {
            assert prefix[i] == rows[i];
          }
        }
      }
      entries
  }

  /** A clinical entry saved for a pet is read back for it, last, with the same
      date and notes; other pets read back what they did before. */
  lemma ClinicalForAppend(rows: seq<ClinicalRow>, row: ClinicalRow, pet: PetId)
    ensures ClinicalFor(rows + [row], pet)
         == ClinicalFor(rows, pet) + (if row.petId == pet then [ClinicalRecord(row.date, row.notes)] else [])
  {
  }

  /** `SELECT date, condition, notes FROM daily_check_ins WHERE pet_id = ?`. The query
      has no ORDER BY; the model returns the rows in storage order. */
  function CheckInsFor(rows: seq<CheckInRow>, pet: PetId): (entries: seq<CheckInRecord>)
    ensures |entries| <= |rows|
    ensures forall e :: e in entries ==> CheckInRow(pet, e.date, e.condition, e.notes) in rows
    ensures forall i :: 0 <= i < |rows| && rows[i].petId == pet ==>
              CheckInRecord(rows[i].date, rows[i].condition, rows[i].notes) in entries
    decreases |rows|
  {
    if rows == [] then []
    else
      var prefix := rows[..|rows| - 1];
      var last := rows[|rows| - 1];
      assert rows == prefix + [last];
      var rest := CheckInsFor(prefix, pet);
      var entries := rest + (if last.petId == pet then [CheckInRecord(last.date, last.condition, last.notes)] else []);
      assert forall i :: 0 <= i < |rows| && rows[i].petId == pet ==>
               CheckInRecord(rows[i].date, rows[i].condition, rows[i].notes) in entries by {
        forall i | 0 <= i < |rows| && rows[i].petId == pet
          ensures CheckInRecord(rows[i].date, rows[i].condition, rows[i].notes) in entries
        {
          if i < |prefix| {
            assert prefix[i] == rows[i];
          }
        }
      }
      entries
  }

  /** A check-in saved for a pet is read back for it, last, with the same date,
      condition and notes; other pets read back what they did before. */
  lemma CheckInsForAppend(rows: seq<CheckInRow>, row: CheckInRow, pet: PetId)
    ensures CheckInsFor(rows + [row], pet)
         == CheckInsFor(rows, pet) + (if row.petId == pet then [CheckInRecord(row.date, row.condition, row.notes)] else [])
  {
  }
}
