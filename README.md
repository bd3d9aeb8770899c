# studyspot — a verified model of the app's data and list logic

studyspot is an Android app for finding study spots on a campus, keeping
favourite spots and a list of contacts. This project models, in Dafny, the
parts of it that hold behaviour rather than layout:

- the `users` table and its data-access object (register with abort on a
  duplicate email, login by email and password, update by primary key, and
  the lookup by email that the contact view-model uses);
- the authentication view-model (`register` and `login` with their
  success and error callbacks, modelled as returned callback values);
- the contact view-model (`loadContactsForUser`, `addContactByEmail` and
  its `contactUsers` state);
- the `studyspots` table: its two read queries, and the database callback
  that seeds ten rows on creation and on opening an empty table;
- the study-spot view-model (`fetchStudySpots` as "replace with the latest
  snapshot" and the `searchStudySpots` filter);
- the list logic embedded in four screens: the study search screen's
  filter, its favourite × free split and the order of its list; the
  add-favourite dialog's filter on the profile screen; the contact search
  and the add-contact gate on the community screen; and the registration
  screen's input guard.

Files: `text.dfy` (case-insensitive `contains`, `isBlank`), `seqs.dfy`
(order-preserving filter and subsequence facts), `entities.dfy` (`User`,
`StudySpot`), `user_dao.dfy`, `auth_view_model.dfy`,
`community_view_model.dfy`, `study_spot_dao.dfy`, `database_module.dfy`,
`study_spot_view_model.dfy`, `study_search_screen.dfy`,
`profile_screen.dfy`, `community_screen.dfy`, `register_screen.dfy`.

Modelling choices:

- A table whose rows the code updates in place is a class with a `map` or
  `seq` field (`UserDao.UserTable`, `Seeding.StudySpotDatabase`); the
  view-models are classes holding their state field and their table.
  Coroutines and flows become sequential calls.
- `contains(q, ignoreCase = true)` is a substring test after folding both
  strings; the fold lower-cases the ASCII letters only. `isBlank` is
  "every character is whitespace" with Kotlin's whitespace set (Java's
  `isWhitespace` or `isSpaceChar`, which leaves out the control U+0085); `isEmpty`
  is length zero. The two differ on queries such as `" "`, and the search
  screen and the add-favourite dialog use different ones.
- The `users` table is a map from email to row, which makes the primary
  key unique by construction; `KeyedByEmail` states that each row is filed
  under its own email, and every operation keeps it.
- The `studyspots` table is the sequence of its rows in scan order. The
  entity declares no primary key, but the seed is one `INSERT` whose ids
  are treated as the key: the insert either adds all ten rows or, when an
  id is already present, none.
- The authentication view-model and the contact view-model each get their
  own table object, because in the code they reach two different database
  files; no property relates the two.

Where the code is incomplete, the model completes it as the callers
require:

- `User` in `User.kt` has three fields, `email`, `name` and `password`.
  The contact view-model reads and writes `user.contacts` and calls
  `userDao.getUserByEmail`, which neither the entity nor `UserDao.kt`
  declares; the model adds `contacts: seq<string>` to `User` and a lookup
  by primary key to the table.
- No type converter for a list column appears in the code, so `contacts`
  is a plain sequence of emails.
- `login` declares `onError: (Any?) -> Unit` but calls `onError()` with no
  argument, which does not compile as written; the model reads it as an
  error callback that carries no detail (`Auth.OnLoginError`).

## Model

| member | source | states |
|---|---|---|
| Text.EmptyContained | app/src/main/java/ch/hslu/mobpro/studyspot/viewmodel/StudySpotViewModel.kt:35-36 | the empty query is contained in every text, ignoring case, so it matches every spot |
| Text.BlankVersusEmpty | app/src/main/java/ch/hslu/mobpro/studyspot/ui/profile/ProfileScreen.kt:310 | the empty string is blank; a single space is blank but not empty; a letter is not blank; NEXT LINE (U+0085) is not blank |
| UserDao.InsertAbort | app/src/main/java/ch/hslu/mobpro/studyspot/data/local/UserDao.kt:12-13 | the insert aborts exactly when the email is already a key; otherwise it adds exactly that row under its email, keeps every other row and keeps the table keyed by email |
| UserDao.SelectByCredentials | app/src/main/java/ch/hslu/mobpro/studyspot/data/local/UserDao.kt:15-16 | a row is returned exactly when some row has that email and that password, and the returned row is such a row |
| UserDao.SelectByEmail | app/src/main/java/ch/hslu/mobpro/studyspot/viewmodel/CommunityViewModel.kt:22 | the lookup by email finds a row exactly when a row with that email exists, and returns that row |
| UserDao.UpdateByKey | app/src/main/java/ch/hslu/mobpro/studyspot/data/local/UserDao.kt:18-19 | the update keeps the set of keys, replaces only the row whose key is the user's email (none when it is absent) and keeps the table keyed by email |
| UserDao.InsertTwiceAborts | app/src/main/java/ch/hslu/mobpro/studyspot/data/local/UserDao.kt:12-13 | registering a fresh email succeeds and registering it again aborts |
| UserDao.InsertThenLogin | app/src/main/java/ch/hslu/mobpro/studyspot/data/local/UserDao.kt:12-16 | after a successful insert, login with that email and password returns exactly the inserted row |
| UserDao.UpdateThenSelect | app/src/main/java/ch/hslu/mobpro/studyspot/data/local/UserDao.kt:18-19 | after an update, the lookup by the user's email returns the written row, contacts included; an update of a missing email writes nothing |
| UserDao.WrongPasswordFindsNothing | app/src/main/java/ch/hslu/mobpro/studyspot/data/local/UserDao.kt:15-16 | login with a password other than the stored one returns nothing |
| UserDao.UserTable.constructor | app/src/main/java/ch/hslu/mobpro/studyspot/data/local/UserDao.kt:11 | a new table is empty and keyed by email |
| UserDao.UserTable.RegisterUser | app/src/main/java/ch/hslu/mobpro/studyspot/data/local/UserDao.kt:12-13 | success exactly when the email is new; on success the table gains that row, on failure it is unchanged |
| UserDao.UserTable.Login | app/src/main/java/ch/hslu/mobpro/studyspot/data/local/UserDao.kt:15-16 | returns a row exactly when the email is a key and its stored password is the given one; the table is not modified |
| UserDao.UserTable.GetUserByEmail | app/src/main/java/ch/hslu/mobpro/studyspot/viewmodel/CommunityViewModel.kt:22 | returns the row stored under the email, or nothing when there is none; the table is not modified |
| UserDao.UserTable.UpdateUser | app/src/main/java/ch/hslu/mobpro/studyspot/data/local/UserDao.kt:18-19 | the new table is the update by primary key of the old one |
| Auth.AuthViewModel.constructor | app/src/main/java/ch/hslu/mobpro/studyspot/viewmodel/AuthViewModel.kt:10-11 | the view-model works on the `users` table it is given, keyed by email |
| Auth.AuthViewModel.Register | app/src/main/java/ch/hslu/mobpro/studyspot/viewmodel/AuthViewModel.kt:13-22 | the callback reached: success exactly when the email was new, and then the table gains User(email, name, password) with each argument in its own field; otherwise the error carries the fixed message and the table is unchanged |
| Auth.AuthViewModel.Login | app/src/main/java/ch/hslu/mobpro/studyspot/viewmodel/AuthViewModel.kt:24-29 | success exactly when the email is stored with that password, carrying exactly the row the query returns; otherwise the error callback; the table is not modified |
| Auth.RegisterTwice | app/src/main/java/ch/hslu/mobpro/studyspot/viewmodel/AuthViewModel.kt:13-22 | registering one email twice gives success then the fixed error, and the table keeps the first registration |
| Community.ResolveContacts | app/src/main/java/ch/hslu/mobpro/studyspot/viewmodel/CommunityViewModel.kt:24 | the resolved list is no longer than the emails and holds only rows of the table |
| Community.ResolveIsLookupOfKnown | app/src/main/java/ch/hslu/mobpro/studyspot/viewmodel/CommunityViewModel.kt:24 | resolving equals keeping the emails that have a row, in order, and replacing each by its row: unknown emails are dropped silently |
| Community.ResolvedEmailsListed | app/src/main/java/ch/hslu/mobpro/studyspot/viewmodel/CommunityViewModel.kt:24 | every resolved user's email is one of the contact emails |
| Community.AddContact | app/src/main/java/ch/hslu/mobpro/studyspot/viewmodel/CommunityViewModel.kt:32-36 | when owner and contact exist and the contact is not listed, the owner's row becomes the old row with the contact appended (name, password unchanged); otherwise the table is unchanged; other rows and the keys never change |
| Community.AddContactKeepsDistinct | app/src/main/java/ch/hslu/mobpro/studyspot/viewmodel/CommunityViewModel.kt:34-35 | if no user lists a contact twice before the add, none does after it |
| Community.AddContactIdempotent | app/src/main/java/ch/hslu/mobpro/studyspot/viewmodel/CommunityViewModel.kt:34-35 | adding the same contact twice gives the same table as adding it once |
| Community.AddedContactComesLast | app/src/main/java/ch/hslu/mobpro/studyspot/viewmodel/CommunityViewModel.kt:35-37 | after a successful add, the reloaded contact list ends with the added contact's row; before it stands the owner's earlier contact list resolved in the updated table, which is the list as it resolved before the add whenever the owner does not list itself |
| Community.CommunityViewModel.constructor | app/src/main/java/ch/hslu/mobpro/studyspot/viewmodel/CommunityViewModel.kt:17-18 | the contact list starts empty |
| Community.CommunityViewModel.Resolve | app/src/main/java/ch/hslu/mobpro/studyspot/viewmodel/CommunityViewModel.kt:24 | the loop of lookups returns the resolved contact list |
| Community.CommunityViewModel.LoadContactsForUser | app/src/main/java/ch/hslu/mobpro/studyspot/viewmodel/CommunityViewModel.kt:20-28 | for an unknown owner the contact list is unchanged; otherwise it becomes the owner's contacts resolved to rows, in order, unknown ones dropped |
| Community.CommunityViewModel.AddContactByEmail | app/src/main/java/ch/hslu/mobpro/studyspot/viewmodel/CommunityViewModel.kt:30-40 | the table becomes the contact-add of the old table; after a successful add the contact list is reloaded for the owner, otherwise it is unchanged |
| StudySpotDao.GetAllStudySpots | app/src/main/java/ch/hslu/mobpro/studyspot/data/local/StudySpotDao.kt:10-11 | the full scan returns every row as often as it is stored |
| StudySpotDao.GetStudySpotById | app/src/main/java/ch/hslu/mobpro/studyspot/data/local/StudySpotDao.kt:13-14 | at most one row; a row exactly when some row has that id, and then a row of the table with that id |
| StudySpotDao.LookupFindsRow | app/src/main/java/ch/hslu/mobpro/studyspot/data/local/StudySpotDao.kt:13-14 | when ids are distinct, looking up a row's id returns that row |
| Seeding.SeedIds | app/src/main/java/ch/hslu/mobpro/studyspot/di/DatabaseModule.kt:69-79 | the seed has ten rows with ids spot_001 to spot_010 in order |
| Seeding.SeedIdsDistinct | app/src/main/java/ch/hslu/mobpro/studyspot/di/DatabaseModule.kt:70-79 | no id occurs twice in the seed |
| Seeding.SeedRowFlags | app/src/main/java/ch/hslu/mobpro/studyspot/di/DatabaseModule.kt:70-79 | row by row, spot_001, 002, 004, 005, 007, 009 and 010 are free, and spot_002, 003, 005, 007, 008 and 010 allow group work; the others do not |
| Seeding.SeedFreeSpots | app/src/main/java/ch/hslu/mobpro/studyspot/di/DatabaseModule.kt:70-79 | filtering the seed by the free flag keeps exactly seven spots |
| Seeding.SeedGroupWorkSpots | app/src/main/java/ch/hslu/mobpro/studyspot/di/DatabaseModule.kt:70-79 | filtering the seed by the group-work flag keeps exactly six spots; the third row (spot_003) allows group work and is not free |
| Seeding.StudySpotDatabase.constructor | app/src/main/java/ch/hslu/mobpro/studyspot/di/DatabaseModule.kt:46-47 | a freshly created table is empty |
| Seeding.StudySpotDatabase.InsertInitialData | app/src/main/java/ch/hslu/mobpro/studyspot/di/DatabaseModule.kt:66-82 | the insert succeeds exactly when no seed id is taken; then the ten seed rows are appended, otherwise the table is unchanged; ids stay distinct |
| Seeding.StudySpotDatabase.OnCreate | app/src/main/java/ch/hslu/mobpro/studyspot/di/DatabaseModule.kt:46-49 | creation inserts the seed as above |
| Seeding.StudySpotDatabase.OnOpen | app/src/main/java/ch/hslu/mobpro/studyspot/di/DatabaseModule.kt:52-64 | opening an empty table seeds it; opening a non-empty table leaves it unchanged |
| Seeding.FirstStart | app/src/main/java/ch/hslu/mobpro/studyspot/di/DatabaseModule.kt:46-63 | creation followed by opening, and opening again, leaves exactly the ten seed rows, without duplication |
| Catalogue.StudySpotViewModel.constructor | app/src/main/java/ch/hslu/mobpro/studyspot/viewmodel/StudySpotViewModel.kt:18 | the list starts empty |
| Catalogue.StudySpotViewModel.FetchStudySpots | app/src/main/java/ch/hslu/mobpro/studyspot/viewmodel/StudySpotViewModel.kt:25-31 | the list becomes the emitted snapshot |
| Catalogue.StudySpotViewModel.SearchStudySpots | app/src/main/java/ch/hslu/mobpro/studyspot/viewmodel/StudySpotViewModel.kt:33-40 | the result is an order-preserving subsequence of the list; every result mentions the query ignoring case and, with freeOnly, is free; every spot of the list meeting both is in the result, with as many copies as the list has, and no other spot is |
| Catalogue.FreeFlagOffExcludesNothing | app/src/main/java/ch/hslu/mobpro/studyspot/viewmodel/StudySpotViewModel.kt:37 | without freeOnly the result holds exactly the spots that mention the query |
| Catalogue.EmptySearchReturnsAll | app/src/main/java/ch/hslu/mobpro/studyspot/viewmodel/StudySpotViewModel.kt:33-40 | the empty query without freeOnly returns the whole list |
| Catalogue.LibraryFreeSearchOnSeed | app/src/main/java/ch/hslu/mobpro/studyspot/di/DatabaseModule.kt:70-79 | over the seed, searching "Library" among free spots returns exactly spot_001 and spot_002 |
| SearchScreen.FilteredSpots | app/src/main/java/ch/hslu/mobpro/studyspot/ui/study/StudySearchScreen.kt:69-77 | the filtered list is an order-preserving subsequence; with the chips on every spot is free / allows group work; a non-blank query is mentioned by every spot; a spot is kept exactly when it meets all three tests, with every copy the list has |
| SearchScreen.BlankQueryIsNeutral | app/src/main/java/ch/hslu/mobpro/studyspot/ui/study/StudySearchScreen.kt:70 | every blank query, whitespace-only included, filters exactly like the empty query |
| SearchScreen.NothingSelectedKeepsAll | app/src/main/java/ch/hslu/mobpro/studyspot/ui/study/StudySearchScreen.kt:69-77 | a blank query with both chips off keeps the whole list |
| SearchScreen.FavoritePartition | app/src/main/java/ch/hslu/mobpro/studyspot/ui/study/StudySearchScreen.kt:79-80 | favourites and non-favourites partition the filtered list: sizes add up, multisets add up, each spot is in the side its id selects |
| SearchScreen.FreePartition | app/src/main/java/ch/hslu/mobpro/studyspot/ui/study/StudySearchScreen.kt:82-85 | free and not free partition a list |
| SearchScreen.SectionsPartition | app/src/main/java/ch/hslu/mobpro/studyspot/ui/study/StudySearchScreen.kt:79-85 | the four favourite × free sections together are the filtered list as a multiset, each spot in the section its two flags select |
| SearchScreen.LayoutCards | app/src/main/java/ch/hslu/mobpro/studyspot/ui/study/StudySearchScreen.kt:169-230 | the cards of the list are the four sections in the order favourite free, other free, favourite not free, other not free, whatever titles are shown |
| SearchScreen.RowsOrder | app/src/main/java/ch/hslu/mobpro/studyspot/ui/study/StudySearchScreen.kt:166-245 | the cards of the rendered list are the four sections in that order, and as a multiset exactly the filtered list |
| SearchScreen.CardsMarkFavorites | app/src/main/java/ch/hslu/mobpro/studyspot/ui/study/StudySearchScreen.kt:193-230 | every card is marked as a favourite exactly when its spot's id is among the user's favourites |
| ProfileScreen.AvailableStudySpots | app/src/main/java/ch/hslu/mobpro/studyspot/ui/profile/ProfileScreen.kt:308-313 | the offered spots are an order-preserving subsequence, none of them a favourite, all mentioning a non-empty query; every non-favourite spot matching the query is offered, with every copy the list has, and no other |
| ProfileScreen.EmptyQueryOffersNonFavorites | app/src/main/java/ch/hslu/mobpro/studyspot/ui/profile/ProfileScreen.kt:308-310 | with the empty query the dialog offers exactly the non-favourite spots, in order |
| ProfileScreen.SpaceQueryDiffersFromSearchScreen | app/src/main/java/ch/hslu/mobpro/studyspot/ui/profile/ProfileScreen.kt:310-312 | a query of one space is searched for by the dialog (finding nothing in a spot without spaces) while the search screen treats it as blank and keeps the spot |
| CommunityScreen.FilteredContacts | app/src/main/java/ch/hslu/mobpro/studyspot/ui/community/CommunityScreen.kt:51-57 | a blank query shows the contact list unchanged; otherwise an order-preserving subsequence holding exactly the contacts whose name or email contains the query, ignoring case, each with as many copies as the contact list has |
| CommunityScreen.FilterContactsIdempotent | app/src/main/java/ch/hslu/mobpro/studyspot/ui/community/CommunityScreen.kt:51-57 | filtering the shown list again with the same query changes nothing |
| CommunityScreen.OwnEmailFindsContact | app/src/main/java/ch/hslu/mobpro/studyspot/ui/community/CommunityScreen.kt:53-56 | searching for a contact's own email always keeps that contact |
| CommunityScreen.OnAdd | app/src/main/java/ch/hslu/mobpro/studyspot/ui/community/CommunityScreen.kt:89-95 | with no current user nothing changes; otherwise the contact is added with the current user's email as owner, and the contact list becomes that user's contacts resolved in the new table when the add went through, and stays as it was when it did not |
| RegisterScreen.Click | app/src/main/java/ch/hslu/mobpro/studyspot/ui/auth/RegisterScreen.kt:40-46 | the callback is made exactly when name and email are not blank and the password has at least four characters, with the three fields unchanged; otherwise the error shows the fixed message and there is no callback |
| RegisterScreen.PasswordBoundary | app/src/main/java/ch/hslu/mobpro/studyspot/ui/auth/RegisterScreen.kt:41 | a four-character password is accepted, a three-character one refused |
| RegisterScreen.BlankNameRefused | app/src/main/java/ch/hslu/mobpro/studyspot/ui/auth/RegisterScreen.kt:41-44 | a name of spaces only is refused whatever the password |
| RegisterScreen.RefusalIsStable | app/src/main/java/ch/hslu/mobpro/studyspot/ui/auth/RegisterScreen.kt:40-46 | a refused form stays refused, and clicking again gives the same state |
| RegisterScreen.InitialFormRefused | app/src/main/java/ch/hslu/mobpro/studyspot/ui/auth/RegisterScreen.kt:26-29 | the starting form, whose fields are never edited, is refused on every click |
| RegisterScreen.AcceptedClickKeepsError | app/src/main/java/ch/hslu/mobpro/studyspot/ui/auth/RegisterScreen.kt:41-42 | an accepted click does not clear an earlier error message |

## Left out

- Compose rendering (layout, colours, icons, dialogs as widgets, the
  contact row and the add-contact dialog), the toast, the dialog's
  visibility flag and the `LaunchedEffect` triggers: presentation only.
- Navigation, the main activity, Hilt injection and the Room builder
  configuration: framework wiring.
- The synchronised singleton of the app database: concurrency, not
  modelled; all calls are sequential.
- Coroutines and flows: each `launch` runs to completion before the next
  call, and `fetchStudySpots`'s endless subscription is one snapshot
  replacement per emission.
- The SQL engine, cursors and schema migration: tables are Dafny maps and
  sequences, and `onOpen`'s row count is the sequence's length.
- Text.ContainsIgnoreCase: case folding covers ASCII letters only, not
  Kotlin's full Unicode case-insensitive comparison.
- RegisterScreen.Click: the password length counts Unicode scalar values,
  where Kotlin counts UTF-16 code units; they differ only for characters
  outside the Basic Multilingual Plane.
- Auth.AuthViewModel.Register: the callbacks are taken to return
  normally. In the code `onSuccess()` runs inside the `try`, so a success
  callback that throws is followed by `onError` with the fixed message
  although the row was inserted; returning the callback as a value cannot
  show that second call.
- Plaintext passwords: a security concern, not behaviour.
- The profile screen's favourites, profile edit and current user, and the
  screens' `currentUser` in general: the authentication view-model does
  not declare them, so the screens take the favourite ids and the current
  user as parameters.
- The study-spot DAO's absence from the app database class and the
  missing primary key on the `StudySpot` entity: the model assumes the
  table exists and treats `id` as its key.
