# FurWell pet-care assistant: a Dafny model of its decision logic

FurWell is a single-page Streamlit app backed by Snowflake. A user registers and
logs in, adds pets, and chats with an assistant about a selected pet. Each
question goes through a retrieval-augmented pipeline: the question is refined by
a language model, then a document search runs, then the model answers from a
prompt that bundles recent chat turns, the pet's clinical history and check-ins.

Almost all of the app is I/O. This project models the small, deterministic layer
between those calls as pure functions over immutable values:

- **Session state** (`SessionState`). The typed `Session` record holds the nine
  session keys. `RawSession` is the same dictionary with keys that may be
  missing. `init_user_session` and `handle_logout` depend on whether a key is
  present, so they work on `RawSession`. `logout` works on `Session`.
- **Record store** (`Store`). The four tables are sequences of rows in storage
  order. The queries the app runs are functions over them, for example the
  login dictionary, the id lookups, and the per-pet clinical and check-in rows.
- **Chat-history window** (`ChatHistory`). This is the slice
  `[max(0, n - 7), n - 1)` of the current pet's log. It is given both as a slice
  function and as the source's copying loop, and the two are proved equal.
- **Question pipeline** (`Rag`, `Remote`). The completion service is an opaque
  function `(model, request) -> text`. Each remote call is recorded in a trace,
  so the contracts can say which calls happen, in what order and with what
  arguments: summarise only when the window is non-empty, rewrite once, search
  once with the pet-type filter, then answer once.
- **Forms** (`Auth`, `Pets`). Registration, login and add-pet take the database
  and session, and return a `Submission`: the new session, the new database,
  and the inline error if the form was rejected.

The model follows the code as written, including where it departs from what the app evidently intends:

- The history window holds at most **six** earlier messages, not seven. The
  slice stops one short of the end, so the question just appended is left out.
- The classifier's answer is **not** normalised. Any answer other than the exact
  text `"Undefined"` is accepted and stored as the pet's type, even one outside
  the five labels. The comment at line 269 says it should be checked, but the
  code does not check it (`Pets.UnlabelledTypeIsStored`).
- The search adapter **always returns no results**. Its success path returns the
  unbound name `json_response`. The resulting `NameError` is caught by its own
  `except` clause, which returns `{"results": []}`. So the prompt's context is
  always empty and the set of source paths is always empty.
- The user's chat entry stores the question **with** its quotes. Only the copy
  sent to the pipeline, and the assistant's reply, are quote-stripped.

## Model

| member | source | states |
|---|---|---|
| Text.StripQuotes | streamlit_bot.py:136 | the result contains no single quote, is no longer than the input, and keeps every other character with its multiplicity |
| Text.StripQuotesFixedPoints | streamlit_bot.py:159 | stripping leaves a string unchanged exactly when it has no quote |
| Text.StripQuotesIdempotent | streamlit_bot.py:642 | stripping twice equals stripping once |
| Text.StripQuotesAppend | streamlit_bot.py:639 | stripping distributes over concatenation, so the kept characters stay in order |
| Dates.Age | streamlit_bot.py:344-346 | the age's anniversary is reached on `today` and the next one is not; the age is non-negative exactly when the birthday is on or before today |
| Dates.AgeIsCompletedYears | streamlit_bot.py:344-346 | the age is the unique k whose k-th anniversary is reached while the (k+1)-th is not |
| Dates.AgeMonotone | streamlit_bot.py:344-346 | a later date never yields a smaller age |
| Store.Usernames | streamlit_bot.py:284-285 | a name is in the set exactly when some user row carries it |
| Store.PasswordMap | streamlit_bot.py:297-298 | the login dictionary's keys are exactly the stored usernames, and each maps to a password stored with that name |
| Store.PasswordMapLastWins | streamlit_bot.py:298 | the dictionary keeps the password of the last row with a name |
| Store.PasswordMapHoldsAccounts | streamlit_bot.py:298 | with unique usernames, the dictionary maps u to p exactly when a stored row pairs u with p |
| Store.FirstUserId | streamlit_bot.py:309-310 | the id lookup finds a row exactly when the name is stored, and the id belongs to a row with that name |
| Store.FirstUserIdOfNewName | streamlit_bot.py:309-310 | after appending a row under a new name, the lookup returns that row's id |
| Store.PetIdsOf | streamlit_bot.py:319-321 | the owner's pet ids are exactly the ids of the rows with that owner |
| Store.PetNamesOf | streamlit_bot.py:357-359 | a name is listed exactly when some row of that owner carries it |
| Store.MatchingPetIds | streamlit_bot.py:377-382 | an id is listed exactly when some row has that owner, that name and that id; the list is empty exactly when the owner has no pet of that name |
| Store.LatestPetId | streamlit_bot.py:377-382 | an id is found exactly when the owner has a pet of that name, and it is the largest matching id |
| Store.LatestPetIdOfNewName | streamlit_bot.py:377-382 | after inserting a row under a name the owner did not use, the read-back returns exactly that row's id |
| Store.PetInfo | streamlit_bot.py:557-565 | a row is found exactly when some pet has the id, and it is a stored row with that id |
| Store.ClinicalFor | streamlit_bot.py:171-176 | every returned entry comes from a stored clinical row of that pet, and every stored clinical row of that pet is returned |
| Store.ClinicalForAppend | streamlit_bot.py:171-176 | an entry saved for a pet is read back last for it (under the storage-order reading noted below) with the same date and notes, and other pets are unaffected |
| Store.CheckInsFor | streamlit_bot.py:177-182 | every returned check-in comes from a stored check-in row of that pet, and every stored check-in row of that pet is returned |
| Store.CheckInsForAppend | streamlit_bot.py:177-182 | a check-in saved for a pet is read back last for it (under the storage-order reading noted below) with the same date, condition and notes, and other pets are unaffected |
| SessionState.InitUserSession | streamlit_bot.py:30-46 | each present key keeps its value and each missing key receives its default |
| SessionState.InitOfStored | streamlit_bot.py:44-46 | initialising a session that has every key changes nothing |
| SessionState.InitOfEmpty | streamlit_bot.py:31-41 | initialising a fresh session yields exactly the default record |
| SessionState.InitIdempotent | streamlit_bot.py:44-46 | running the initialisation again after it has run changes nothing |
| SessionState.Logout | streamlit_bot.py:417-425 | the result is signed out (every field but the model at its default) and the model choice is kept; the callback is only registered by `config_options`, which `main` never calls, so the live path is `handle_logout` |
| SessionState.LogoutIdempotent | streamlit_bot.py:417-425 | logging out twice equals logging out once |
| SessionState.LogoutIsFreshSession | streamlit_bot.py:417-425 | logging out yields the freshly initialised session apart from the model choice |
| SessionState.HandleLogout | streamlit_bot.py:58-66 | each of the seven user keys is reset if present and stays absent if absent; the view is set and the model is untouched |
| SessionState.HandleLogoutAgreesWithLogout | streamlit_bot.py:58-66 | on an initialised session the logout button has the same effect as the logout callback |
| SessionState.HandleLogoutIdempotent | streamlit_bot.py:58-66 | pressing the logout button twice equals pressing it once |
| ChatHistory.Window | streamlit_bot.py:104-112 | the window has at most six messages and none when the log has fewer than two; it holds the last min(n-1, 6) messages before the final one, in order |
| ChatHistory.WindowEmptyIff | streamlit_bot.py:108-109 | the window is empty exactly when the log has fewer than two messages |
| ChatHistory.WindowAfterAppend | streamlit_bot.py:108-109 | right after a message is appended, the window is the last min(k, 6) messages of the k logged before it |
| ChatHistory.GetChatHistory | streamlit_bot.py:104-112 | the copying loop returns exactly the window of the current pet's log |
| Remote.SimilarChunks | streamlit_bot.py:86-101 | the adapter as written always yields an empty result list |
| Rag.RefinedQuery | streamlit_bot.py:185-191 | the query sent to search never contains a single quote |
| Rag.RefinementCalls | streamlit_bot.py:185-191 | with a non-empty window: summarise, then rewrite the stripped summary, then search; otherwise rewrite the raw question, then search; the search is last, its query is the quote-stripped reply to the rewrite call just before it, filtered to the pet's type or "Undefined", limit 5 |
| Rag.CreatePrompt | streamlit_bot.py:164-239 | the prompt carries the window, the pet's clinical rows and check-ins and the question; summarisation runs exactly when the log has at least two messages; the source paths are those of the returned chunks, which are none |
| Rag.AnswerQuestion | streamlit_bot.py:242-249 | the answer completion comes after the prompt's calls and is the only answer call; there is exactly one search; the response is the completion's reply to that prompt |
| Rag.PriorLog | streamlit_bot.py:623-624 | after the page stores the pet's log, the message map is unchanged when the pet had a log, and otherwise gains an empty one for it |
| Rag.ChatTurn | streamlit_bot.py:623-646 | an answered turn appends exactly the raw user question then an assistant entry holding the quote-stripped reply of the final answer call; other pets' logs and all other fields are unchanged; with no pet or no question nothing else happens |
| Rag.ChatTurnCalls | streamlit_bot.py:630-641 | summarisation happens exactly when the pet had a logged message before; one search; the answer call is last; its prompt has the stripped question and the last min(k, 6) earlier messages |
| Rag.ChatTurnUsesPetData | streamlit_bot.py:164-191 | an answered turn searches with the type stored for the current pet (or "Undefined"), asks the session's model, and its prompt carries that pet's clinical rows and check-ins |
| Auth.RegisterUser | streamlit_bot.py:283-294 | rejected for an empty field, or else for a taken name; a rejection changes nothing; success appends one user row and sets the view key to "Login" (the logged-out page still shows the form the radio selects) |
| Auth.RegisterKeepsUsernamesUnique | streamlit_bot.py:286-292 | registration preserves unique usernames and adds a row only on success |
| Auth.CredentialsMatch | streamlit_bot.py:307 | a match implies the name is stored and some stored row pairs it with that password |
| Auth.LoginUser | streamlit_bot.py:296-329 | succeeds exactly when the credentials match; a failure changes nothing; success logs in as a user with that name and selects the first pet, or goes to the add-pet page when there is none |
| Auth.LoginIffStoredAccount | streamlit_bot.py:307 | with unique usernames, login succeeds exactly for a stored username/password pair |
| Auth.RegisterThenLogin | streamlit_bot.py:291-310 | after a successful registration, the same credentials log in as the new user |
| Pets.SelectNewPet | streamlit_bot.py:384-393 | the id is in the pet list and is current; the list gains exactly that id, and only when it was missing, so it stays duplicate-free; the three caches for the id are empty; the view is set to "Current Pet"; every other key is unchanged |
| Pets.ClassifierAnswerUnchecked | streamlit_bot.py:252-270 | the classifier asks the fixed model "mistral-large2" about the breed text and returns its answer as is, whatever it is |
| Pets.NewPetRow | streamlit_bot.py:344-369 | the inserted row carries the owner, the form fields, the type and an age whose anniversary is reached on today while the next is not |
| Pets.AddPet | streamlit_bot.py:348-393 | the checks run in order (empty name or breed, classifier answer exactly "Undefined", duplicate name), each rejection changes nothing, any other answer is accepted, and success inserts the row with the computed age and selects the read-back id |
| Pets.AddPetKeepsNamesUnique | streamlit_bot.py:357-369 | no owner ever gets two pets with the same name |
| Pets.AddPetListsNewPetOnce | streamlit_bot.py:384-385 | on success the new id occurs exactly once in a duplicate-free pet list |
| Pets.UnlabelledTypeIsStored | streamlit_bot.py:268-270 | a classifier answer outside the five labels is accepted and stored as the pet's type |

## Left out

- Connection set-up and secrets (lines 14-24) and the `Root` search-service handle: configuration, no behaviour.
- Every SQL statement is modelled as a function over the row sequences. Database-assigned ids are parameters (`newId`). Inserts and re-selects are taken as one atomic step, so concurrent sessions are not modelled.
- The completion service is an opaque total function. Its failures propagate as exceptions in the source; the model does not represent a failed call. So a failed answer call, after which the source keeps the user entry appended at line 631 with no assistant entry after it (line 646 is never reached), is a log shape `ChatTurn` never produces.
- Search semantics (ranking, the filter's effect on results) are not modelled. Only the call, with its filter and limit, is recorded; the adapter's result is the always-empty list it returns as written.
- SELECTs without ORDER BY (lines 171-182, 319-321) return rows in an order the database does not fix; the model uses storage order, so "read back last", the insertion order of the prompt's clinical rows and check-ins, and the first pet selected at login hold under that assumption.
- The prompt template text: the `Prompt` record holds the parts that are interpolated into it.
- Streamlit rendering and navigation: widgets, `st.rerun`, `change_view`, the page radio and dispatch in `main`, `switch_pet`, `add_bubbles`, `config_options`, and the inline message texts (modelled as error cases).
- `record_clinical_history` and `daily_check_in`: outside the modelled core; only the queries the prompt uses are modelled.
- Pets.AddPet: requires a logged-in user; without one the source inserts a row with a NULL owner (lines 365-369) and then fails when it reads back the inserted id (lines 377-382), so that row is left behind; the model does not represent it.
- Dates.Age: dates are not checked for calendar validity; the lemmas hold for any year, month and day.
