# Team and project management: a Dafny model

This project models the core of a team/project management web application. The server
keeps users, teams and projects and serves them through GraphQL resolvers. An auth
middleware reads the caller's token from a cookie or from an `Authorization: Bearer`
header. Mongoose schemas constrain the documents. The React client adds the bearer header
and validates its forms before calling the API.

What the model covers:

- **The resolvers** are modelled as class `Resolvers.Store`. Its fields are three maps
  from id to document: users, teams and projects.
  - Each query is a function of the tables.
  - Each mutation is a method that runs its guard first and then one or two table
    updates. Its `ensures` gives the whole new state for every branch, and the field
    frames (`modifies this`users` and so on) fix that no other table changes.
  - The unique indexes (username, email, team name) are checked on every write, so
    `Store.Valid()` holds between calls.
- **The auth guard** (`Auth`) covers token selection (a truthy cookie wins, otherwise
  the second space-separated segment of a header starting with "Bearer") and the three
  capability checks. JWT verification is a function parameter from token to an optional
  user id.
- **The schemas** (`UserModel`, `TeamModel`) cover one error per path in schema order, the
  Mongoose message format, a validity predicate, and the defaulting `create`. The email
  pattern is encoded as a predicate on strings.
- **The client** covers:
  - the header builder (`ApolloClient`), with the round trip through the server's parser;
  - the team edit form's member toggle and submit check;
  - the status widget (a class over its three state cells);
  - the create forms (classes over their form record and error cell);
  - the project edit form;
  - the demo login page.

Lists of ids (`IdLists`) carry `$pull`, `$addToSet` and the client toggle, with their
order, duplicate and idempotence lemmas. `JsString` models the JavaScript string
operations used: `trim`, `split`, `startsWith`, `includes` and `toLowerCase`.

## Model

| member | source | states |
|---|---|---|
| JsString.Trim | server/models/user.js:15 | the result has no leading or trailing JS whitespace and is a contiguous slice of the input |
| JsString.TrimStart | server/models/team.js:12 | strips exactly a whitespace prefix; what is left starts with non-whitespace |
| JsString.TrimEnd | server/models/team.js:12 | strips exactly a whitespace suffix; what is left ends with non-whitespace |
| JsString.TrimEmptyIff | client/src/components/TeamEditForm.jsx:31 | trimming gives "" exactly when the string is all whitespace |
| JsString.TrimOfTrimmed | server/models/user.js:15 | trimming a trimmed string changes nothing |
| JsString.TrimIdempotent | server/models/team.js:12 | trimming twice is trimming once |
| JsString.TrimStartOfWhitespace | server/models/team.js:12 | an all-whitespace string trims to "" from the start |
| JsString.Split | server/middleware/auth.js:16 | `split(' ')` gives at least one part and no part contains the separator |
| JsString.JoinSplit | server/middleware/auth.js:16 | joining the parts of a split with the separator gives back the string |
| JsString.SplitJoin | server/middleware/auth.js:16 | splitting a join of separator-free parts gives back the parts |
| JsString.SplitAtFirst | server/middleware/auth.js:16 | a split cuts at the first separator |
| JsString.SplitWithoutSeparator | server/middleware/auth.js:16 | a string without the separator splits into itself alone |
| JsString.ToLowerAscii | client/src/pages/Login.jsx:20 | same length, each character lower-cased in ASCII |
| IdLists.Without | server/graphql/resolvers.js:224 | `$pull`: no occurrence of the id remains; every other id's membership and multiplicity are kept |
| IdLists.WithoutConcat | client/src/components/TeamEditForm.jsx:51 | removal distributes over concatenation, so the kept ids stay in order |
| IdLists.WithoutAbsent | server/graphql/resolvers.js:284 | pulling an absent id changes nothing |
| IdLists.WithoutIdempotent | server/graphql/resolvers.js:284 | a second `$pull` changes nothing |
| IdLists.WithoutKeepsNoDuplicates | server/graphql/resolvers.js:284 | `$pull` keeps a duplicate-free list duplicate-free |
| IdLists.AddToSet | server/graphql/resolvers.js:273 | `$addToSet`: the id is present afterwards, appended only when it was absent, and nothing else changes |
| IdLists.AddToSetIdempotent | server/graphql/resolvers.js:273 | a second `$addToSet` changes nothing |
| IdLists.AddToSetKeepsNoDuplicates | server/graphql/resolvers.js:273 | `$addToSet` adds no duplicate |
| IdLists.Toggle | client/src/components/TeamEditForm.jsx:49-53 | flips the id's membership and keeps every other id's |
| IdLists.ToggleAppendsAtEnd | client/src/components/TeamEditForm.jsx:51 | an absent id is appended exactly once, at the end, after the unchanged list |
| IdLists.ToggleRemovesEveryOccurrence | client/src/components/TeamEditForm.jsx:51 | a present id loses every occurrence; every other id keeps its multiplicity |
| IdLists.ToggleKeepsOthersInOrder | client/src/components/TeamEditForm.jsx:51 | the other ids keep their relative order |
| IdLists.ToggleKeepsNoDuplicates | client/src/components/TeamEditForm.jsx:51 | a duplicate-free list stays duplicate-free |
| IdLists.ToggleTwice | client/src/components/TeamEditForm.jsx:51 | toggling twice gives back the same ids, and the same list when the id was absent |
| UserModel.IsEmail | server/models/user.js:22-25 | the string splits at an '@' into a dotted word and a domain ending in `.xx`/`.xxx` groups |
| UserModel.EmailAccepted | server/models/user.js:23 | "jane.doe@mail.example.com" matches the pattern |
| UserModel.EmailRejected | server/models/user.js:23 | "jane@localhost" does not match the pattern |
| UserModel.ValidUser | server/models/user.js:10-41 | a valid user trips none of the username, email, password and role validators |
| UserModel.UserErrorsEmptyIff | server/models/user.js:10-41 | a user with a trimmed username has no validation error exactly when it is valid |
| UserModel.CreateUser | server/models/user.js:10-41 | `User.create` succeeds exactly on a valid draft (trimmed username, role defaulted to "Member"), returns it, and otherwise fails with the schema's message |
| UserModel.CreateUserAcceptsValid | server/models/user.js:10-41 | a valid user is accepted as it is |
| UserModel.CreateUserDefaultsRole | server/models/user.js:33-37 | with no role given the user is a Member |
| TeamModel.ValidTeam | server/models/team.js:7-42 | a valid team trips none of the name, description, status, slogan and expertise validators |
| TeamModel.TeamDraft | server/models/team.js:8-41 | the document before validation: trimmed name, members [] and level "Intermediate" unless given, status "Active" |
| TeamModel.TeamErrorsEmptyIff | server/models/team.js:7-42 | a team with a trimmed name has no validation error exactly when it is valid |
| TeamModel.CreateTeam | server/models/team.js:7-42 | `Team.create` succeeds exactly on a valid draft (trimmed name, defaults applied), returns it, and otherwise fails with the schema's message |
| TeamModel.CreateTeamDefaults | server/models/team.js:20-41 | a created team is Active, has no members and is Intermediate unless given otherwise |
| TeamModel.CreateTeamAcceptsValid | server/models/team.js:7-42 | a valid Active team is accepted as it is |
| TeamModel.BlankNameRejected | server/models/team.js:8-14 | an all-whitespace name is rejected |
| Auth.HeaderToken | server/middleware/auth.js:15-16 | a header token comes from a header starting with "Bearer" and is non-empty and space-free |
| Auth.SelectToken | server/middleware/auth.js:10-17 | a truthy cookie is used and the header ignored; otherwise the header's token |
| Auth.Authenticate | server/middleware/auth.js:7-38 | succeeds exactly when a token is selected, verifies, and names a stored user; the result is that user without its password |
| Auth.IsAuthenticated | server/middleware/auth.js:41-46 | passes exactly for a non-null caller, else "Not authenticated" |
| Auth.IsAdmin | server/middleware/auth.js:49-54 | passes exactly for a caller with role "Admin"; a null caller gets "Not authorized" |
| Auth.IsAdminOrSelf | server/middleware/auth.js:57-62 | passes exactly for an Admin or the caller whose id is the given one, else "Not authorized" |
| Auth.GuardsOrdered | server/middleware/auth.js:41-62 | admin implies admin-or-self implies authenticated; any caller passes admin-or-self for their own id |
| Auth.CookieWins | server/middleware/auth.js:11-13 | with a truthy cookie the header makes no difference |
| Auth.HeaderTokenOfShape | server/middleware/auth.js:15-16 | "Bearer…" + " " + token + (nothing or a space…) yields that token |
| Auth.HeaderTokenHasShape | server/middleware/auth.js:15-16 | every header yielding a token has that shape |
| Auth.NoTokenWithoutSpace | server/middleware/auth.js:16 | a header without a space yields no token |
| Auth.NoTokenAfterDoubleSpace | server/middleware/auth.js:16 | two spaces after the prefix yield no token |
| Auth.HeaderTokenExamples | server/middleware/auth.js:15-16 | "Bearer", "BearerX", "" and "Bearer  abc" yield nothing; "BearerX abc" yields "abc" |
| Auth.NoTokenIsAnonymous | server/middleware/auth.js:19-21 | with no token, the caller is null whatever the verifier and the users |
| Resolvers.UserIndexConflict | server/models/user.js:14-21 | reports a duplicate key exactly when another user has the same username or email |
| Resolvers.TeamIndexConflict | server/models/team.js:11 | reports a duplicate key exactly when another team has the same name |
| Resolvers.WriteKeepsUniqueUsers | server/models/user.js:14-21 | a write without a conflict keeps usernames and emails unique |
| Resolvers.WriteKeepsUniqueTeamNames | server/models/team.js:11 | a write without a conflict keeps team names unique |
| Resolvers.RegisterRole | server/graphql/resolvers.js:143 | a missing or empty role becomes "Member"; any other role is kept as given |
| Resolvers.Registration | server/graphql/resolvers.js:131-144 | a registered user never clashes with a unique index of the users table |
| Resolvers.RegistrationOutcome | server/graphql/resolvers.js:131-144 | a taken email fails with "User already exists"; otherwise the schema's error, then an index error; a success is a valid user with the given email and password, the trimmed username and the defaulted role |
| Resolvers.ApplyTeamArgs | server/graphql/resolvers.js:251 | given fields are set wholesale (members replaced, name trimmed), absent ones kept, no validator run |
| Resolvers.ApplyUserArgs | server/graphql/resolvers.js:210 | given fields are set (username trimmed), absent ones and the password kept |
| Resolvers.NewProject | server/graphql/resolvers.js:296-300 | the given `teamId` is stored as `team`, the other fields as given |
| Resolvers.UpdateData | server/graphql/resolvers.js:314-318 | `team` is set exactly when `teamId` is truthy, to that value; the rest passes through |
| Resolvers.ApplyProjectPatch | server/graphql/resolvers.js:320 | given fields are set, absent ones kept; a `null` end date clears the stored one |
| Resolvers.UpdateProjectTeam | server/graphql/resolvers.js:314-320 | an update moves the project to `teamId` exactly when it is truthy |
| Resolvers.TeamCreation | server/graphql/resolvers.js:236-243 | a created team never clashes with the unique name index |
| Resolvers.TeamCreationOutcome | server/graphql/resolvers.js:236-243 | the schema's error comes first, then the name index's; a created team is valid and is the defaulted draft |
| Resolvers.PullEverywhere | server/graphql/resolvers.js:224 | the user id is in no team afterwards; every team's other members and fields stay |
| Resolvers.DropTeamProjects | server/graphql/resolvers.js:265 | exactly the projects of other teams remain, unchanged |
| Resolvers.PullKeepsUniqueTeamNames | server/graphql/resolvers.js:224 | the cascade keeps team names unique |
| Resolvers.StatusUpdateCheck | server/graphql/resolvers.js:341-355 | passes exactly for an authenticated Admin or team member on an existing project; gives "Not authenticated", not-found, the null-team TypeError or "Not authorized" otherwise |
| Resolvers.StatusPolicy | server/graphql/resolvers.js:350-355 | an Admin always may; a non-member non-Admin never may |
| Resolvers.LogoutMakesAnonymous | server/graphql/resolvers.js:195-203 | after logout the "none" cookie still wins and the request is anonymous, whatever the header |
| Resolvers.SelfUpdateMaySetRole | server/graphql/resolvers.js:206-210 | a Member passes `updateUser`'s guard on their own id and the update sets any role |
| Resolvers.Logout | server/graphql/resolvers.js:195-203 | returns true and sets the cookie to "none" |
| Resolvers.Store.constructor | server/graphql/resolvers.js:64-365 | an empty store is valid |
| Resolvers.Store.Me | server/graphql/resolvers.js:67-71 | succeeds exactly for an authenticated caller, with their own profile |
| Resolvers.Store.AllUsers | server/graphql/resolvers.js:73-78 | succeeds exactly for an Admin, with every user's profile and no password |
| Resolvers.Store.UserById | server/graphql/resolvers.js:80-85 | succeeds exactly for an Admin or the user themself; null when absent |
| Resolvers.Store.AllTeams | server/graphql/resolvers.js:88-91 | every team, with no token read |
| Resolvers.Store.TeamById | server/graphql/resolvers.js:93-96 | the team or null, with no token read |
| Resolvers.Store.TeamsByMember | server/graphql/resolvers.js:98-101 | exactly the teams listing the user, with no token read |
| Resolvers.Store.AllProjects | server/graphql/resolvers.js:104-110 | every project, with no token read |
| Resolvers.Store.ProjectById | server/graphql/resolvers.js:112-118 | the project or null, with no token read |
| Resolvers.Store.ProjectsByTeam | server/graphql/resolvers.js:120-126 | exactly the team's projects, with no token read |
| Resolvers.Store.Register | server/graphql/resolvers.js:131-162 | stores exactly what `Registration` accepts and returns its signed token; nothing is stored on error |
| Resolvers.Store.Login | server/graphql/resolvers.js:164-193 | succeeds exactly when a user with this email has a matching password; both failures are "Invalid credentials" |
| Resolvers.Store.UpdateUser | server/graphql/resolvers.js:206-212 | Admin-or-self; null for an absent user; otherwise writes the updated user unless an index conflicts |
| Resolvers.Store.DeleteUser | server/graphql/resolvers.js:214-226 | Admin; not-found leaves all unchanged; otherwise the user is gone, its id is in no team, and projects are untouched |
| Resolvers.Store.CreateTeam | server/graphql/resolvers.js:229-245 | Admin; stores a valid team; every error, the guard's too, starts with "Failed to create team: " |
| Resolvers.Store.UpdateTeam | server/graphql/resolvers.js:247-253 | Admin; null for an absent team; otherwise writes the updated team unless its name conflicts |
| Resolvers.Store.DeleteTeam | server/graphql/resolvers.js:255-267 | Admin; not-found leaves all unchanged; otherwise the team and exactly its projects are gone |
| Resolvers.Store.AddMemberToTeam | server/graphql/resolvers.js:269-278 | Admin; null for an absent team; only that team changes; the user is a member afterwards and a repeat changes nothing |
| Resolvers.Store.RemoveMemberFromTeam | server/graphql/resolvers.js:280-289 | Admin; null for an absent team; only that team changes; no occurrence remains and a repeat changes nothing |
| Resolvers.Store.CreateProject | server/graphql/resolvers.js:292-308 | Admin; stores the project under its `teamId` |
| Resolvers.Store.UpdateProject | server/graphql/resolvers.js:310-326 | Admin; null for an absent project; otherwise applies the rewritten update |
| Resolvers.Store.DeleteProject | server/graphql/resolvers.js:328-338 | Admin; not-found or the project removed |
| Resolvers.Store.UpdateProjectStatus | server/graphql/resolvers.js:340-363 | when `StatusUpdateCheck` fails nothing changes; otherwise only that project's status changes |
| ApolloClient.AuthorizationValue | client/src/apollo/client.js:18 | "Bearer " + token for a truthy token, "" otherwise |
| ApolloClient.AuthHeaders | client/src/apollo/client.js:15-19 | all incoming headers kept except `authorization`, which is overwritten |
| ApolloClient.HeaderRoundTrip | client/src/apollo/client.js:18 | the server's parser reads back a non-empty space-free token exactly |
| ApolloClient.NoStoredTokenSendsNone | client/src/apollo/client.js:18 | the empty header yields no token |
| ApolloClient.RequestAuthenticatesAsTokenUser | client/src/apollo/client.js:10-21 | a cookie-less request with the built headers authenticates as the token's user, or is anonymous without a token |
| TeamEditForm.MemberIds | client/src/components/TeamEditForm.jsx:11 | the ids of the member records, in order |
| TeamEditForm.InitialState | client/src/components/TeamEditForm.jsx:6-11 | a falsy slogan becomes "", a falsy level "Intermediate", missing members [] |
| TeamEditForm.HandleMemberChange | client/src/components/TeamEditForm.jsx:49-53 | flips the id's membership: an absent id is appended at the end, a present one loses every occurrence; the others keep their order and no other field changes |
| TeamEditForm.HandleSubmit | client/src/components/TeamEditForm.jsx:28-47 | rejected with the message exactly when name or description is blank after trimming; otherwise sends the untrimmed values under `team.id` |
| TeamEditForm.MemberChangeKeepsSubmit | client/src/components/TeamEditForm.jsx:28-53 | toggling members changes neither acceptance nor the submitted id |
| TeamEditForm.ApplyToggles | client/src/components/TeamEditForm.jsx:49-53 | a run of member clicks changes only the member list, and only for the clicked ids |
| TeamEditForm.TogglesKeepNoDuplicates | client/src/components/TeamEditForm.jsx:51 | any sequence of toggles keeps the list duplicate-free |
| ProjectStatusUpdate.FindById | client/src/components/ProjectStatusUpdate.jsx:28 | the first project with the id, present exactly when one exists |
| ProjectStatusUpdate.SetStatus | client/src/components/ProjectStatusUpdate.jsx:44-46 | same length; exactly the projects with the id get the status; the others stay |
| ProjectStatusUpdate.SetStatusKeepsIdentity | client/src/components/ProjectStatusUpdate.jsx:45 | ids and names stay; an unknown id changes nothing |
| ProjectStatusUpdate.SetStatusIdempotent | client/src/components/ProjectStatusUpdate.jsx:45 | repeating the update changes nothing more |
| ProjectStatusUpdate.SetStatusThenFind | client/src/components/ProjectStatusUpdate.jsx:28-45 | after an update, looking the project up gives the new status |
| ProjectStatusUpdate.PlaceholderSelectsNothing | client/src/components/ProjectStatusUpdate.jsx:4-20 | no initial project has the id "" |
| ProjectStatusUpdate.StatusForm.constructor | client/src/components/ProjectStatusUpdate.jsx:4-24 | the three projects, nothing selected, no status, flag down |
| ProjectStatusUpdate.StatusForm.HandleProjectChange | client/src/components/ProjectStatusUpdate.jsx:26-33 | selects the id, copies a found project's status (keeps it otherwise), lowers the flag, list untouched |
| ProjectStatusUpdate.StatusForm.HandleStatusChange | client/src/components/ProjectStatusUpdate.jsx:35-37 | only `newStatus` changes |
| ProjectStatusUpdate.StatusForm.HandleSubmit | client/src/components/ProjectStatusUpdate.jsx:39-51 | a no-op without selection or status; otherwise `SetStatus` and the flag raised |
| ProjectForm.WithField | client/src/components/ProjectForm.jsx:34-39 | the named field is set, every other field kept |
| ProjectForm.Variables | client/src/components/ProjectForm.jsx:50-58 | an empty end date is left out; everything else passes through |
| ProjectForm.ServerArgs | client/src/components/ProjectForm.jsx:50-58 | the variables reach `createProject` unchanged; an omitted end date stays omitted |
| ProjectForm.CreatedProjectMatchesForm | client/src/components/ProjectForm.jsx:50-58 | the stored project belongs to the chosen team and has an end date exactly when one was entered |
| ProjectForm.ProjectFormState.constructor | client/src/components/ProjectForm.jsx:6-14 | empty fields, today's start date, status "Pending", no error |
| ProjectForm.ProjectFormState.HandleInputChange | client/src/components/ProjectForm.jsx:34-39 | the form becomes `WithField` of the old one |
| ProjectForm.ProjectFormState.HandleSubmit | client/src/components/ProjectForm.jsx:41-60 | clears the error; a missing required field (untrimmed) sets it and sends nothing; otherwise sends `Variables` |
| TeamForm.WithField | client/src/components/TeamForm.jsx:33-38 | the named field is set, every other field and the members kept |
| TeamForm.Variables | client/src/components/TeamForm.jsx:57-65 | empty members and an empty slogan are left out; the expertise level always sent |
| TeamForm.OmittedMembersSameAsEmpty | client/src/components/TeamForm.jsx:61 | leaving out an empty member list creates the same team as sending it |
| TeamForm.DefaultsAgree | client/src/components/TeamForm.jsx:6-12 | the initial level is the schema's default and the initial empty members are left out |
| TeamForm.TeamFormState.constructor | client/src/components/TeamForm.jsx:6-13 | the initial form and no error |
| TeamForm.TeamFormState.HandleInputChange | client/src/components/TeamForm.jsx:33-38 | the form becomes `WithField` of the old one |
| TeamForm.TeamFormState.HandleSubmit | client/src/components/TeamForm.jsx:48-66 | clears the error; an empty name or description sets it and sends nothing; otherwise sends `Variables` |
| ProjectEditForm.InitialState | client/src/components/ProjectEditForm.jsx:22-27 | fields copied from the project; the team id from `project.team.id` |
| ProjectEditForm.HandleSubmit | client/src/components/ProjectEditForm.jsx:44-63 | rejected exactly on a blank trimmed name or description or an empty team or start date; otherwise sent under `project.id` with an empty end date as null |
| ProjectEditForm.ServerArgs | client/src/components/ProjectEditForm.jsx:52-62 | every field reaches `updateProject` as given; a `null` end date arrives as an explicit null |
| ProjectEditForm.AcceptedEditReachesStore | client/src/components/ProjectEditForm.jsx:52-62 | the stored project moves to the chosen team and an emptied end date is cleared |
| ProjectEditForm.UnchangedEditKeepsTeam | client/src/components/ProjectEditForm.jsx:22-27 | an unchanged form on a project with a non-blank name and description, a team and a start date is accepted and submits the project's own team |
| LoginPage.HandleLoginSubmit | client/src/pages/Login.jsx:11-23 | an empty field sets the error and calls nothing; otherwise `onLogin` gets the admin flag "lower-cased username contains admin" and the error is left "" |
| LoginPage.HandleSignupSubmit | client/src/pages/Login.jsx:25-37 | an empty username, password or email sets the error and calls nothing; otherwise `onLogin` gets the admin flag `role == "admin"` and the error is left "" |
| LoginPage.AdminAnyCase | client/src/pages/Login.jsx:20 | "admin" in any letter case anywhere in the username gives an admin login |
| LoginPage.LoginAdminExamples | client/src/pages/Login.jsx:20 | "SuperAdmin" is an admin login, "jane" is not |
| LoginPage.InitialRoleIsMember | client/src/pages/Login.jsx:8-34 | signing up with the initial role "member" is not an admin signup |

## Left out

- Database I/O, `populate` and output shaping (`formatDocument`, `formatPopulatedDocument`) are not modelled. Tables are maps, and results are the stored values or `Profile`s.
- Hashing, the pre-save hook, and JWT signing and verification are left out. They are the function parameters `Signer`, `PasswordCheck` and `Verifier`.
- New document ids are parameters of the create methods; ObjectId casting is not modelled, so ids are plain strings.
- Cookies and their expiry times (`Date.now`) are not modelled. `register` and `login` return the token without setting a cookie. `Logout` only states the cookie value.
- Concurrency is not modelled, nor a failure between the two steps of a cascade. Each resolver runs to completion alone.
- `findByIdAndUpdate` runs no schema validators, so `Valid()` covers only the unique indexes and validity is claimed for create paths only.
- The project schema is not part of this model. Project fields are stored as given and `status` stays optional.
- Explicit `null` is modelled only for `updateProject`'s `endDate`. For the other updates an argument is either given or absent.
- Query result order is not modelled: tables are maps.
- String lengths count Dafny characters, not UTF-16 code units. `toLowerCase` maps ASCII letters only.
- The validation error text assumes Mongoose lists the failing paths in schema order. The duplicate-key text follows MongoDB's E11000 format for this database.
- Resolvers.StatusUpdateCheck: a project whose team is gone yields the TypeError message. The model does not capture that `populate` would make that team null.
- `handleMembersChange` in the team form reads selected DOM options and is not modelled.
- The client's mutation callbacks (`onCompleted`, `onError`, refetching, timers, the success flag) are not modelled. Only the state change and the call a submit issues are.
- The `updateTeam` operation text declares no `$members`, so the edited member list from the team edit form is not claimed to reach `updateTeam`.
- `formatDate` and the current-date default start date are inputs: the dates are parameters of `ProjectEditForm.InitialState` and `ProjectForm.ProjectFormState.constructor`.
