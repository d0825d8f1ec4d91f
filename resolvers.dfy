/** The GraphQL resolvers over three in-memory tables (users, teams, projects). Each query
    is a function of the tables; each mutation is a method that runs its guard first and
    then one or two table updates: the user-removal and team-deletion cascades, `$addToSet`
    and `$pull` on a team's members, the project `updateData` rewrite and the
    membership-checked status update. Unique indexes (username, email, team name) are
    enforced on every write, so `Store.Valid()` holds between calls. */
module Resolvers {
  import opened Wrappers
  import opened JsString
  import opened IdLists
  import opened Schema
  import opened UserModel
  import opened TeamModel
  import opened Auth

  /** A stored project. The project schema is not part of this model, so fields are kept
      as given; `status` is None when the creating call left it out. */
  datatype Project = Project(
    name: string,
    description: string,
    team: Id,
    startDate: string,
    endDate: Option<string>,
    status: Option<string>)

  /** What `register` and `login` return: the signed token and the user it names. */
  datatype AuthPayload = AuthPayload(token: string, userId: Id)

  /** `getSignedJwtToken`: the token signed for a user id. */
  type Signer = Id -> string

  /** `matchPassword`: whether an entered password matches the stored one. */
  type PasswordCheck = (string, string) -> bool

  const UserExists: string := "User already exists"
  const InvalidCredentials: string := "Invalid credentials"
  const CreateTeamPrefix: string := "Failed to create team: "
  /** The value `logout` writes into the `token` cookie. */
  const LogoutCookie: string := "none"
  /** The TypeError thrown when a project's team document no longer exists. */
  const MissingTeamError: string := "Cannot read properties of null (reading '_id')"

  function UserNotFound(id: Id): string { "User with ID " + id + " not found" }
  function TeamNotFound(id: Id): string { "Team with ID " + id + " not found" }
  function ProjectNotFound(id: Id): string { "Project with ID " + id + " not found" }

  // ---- unique indexes ----

  predicate UniqueUsers(users: map<Id, User>) {
    forall a, b :: a in users && b in users && a != b ==>
      users[a].username != users[b].username && users[a].email != users[b].email
  }

  predicate UniqueTeamNames(teams: map<Id, Team>) {
    forall a, b :: a in teams && b in teams && a != b ==> teams[a].name != teams[b].name
  }

  /** `User.findOne({ email })` finds a user. */
  predicate EmailTaken(users: map<Id, User>, email: string) {
    exists id :: id in users && users[id].email == email
  }

  /** The duplicate-key error writing `u` under `id` raises, the username index first. */
  function UserIndexConflict(users: map<Id, User>, id: Id, u: User): (e: Option<string>)
    ensures e.None? <==> forall other :: other in users && other != id ==>
                           users[other].username != u.username && users[other].email != u.email
  {
    if exists other :: other in users && other != id && users[other].username == u.username then
      Some(DuplicateKeyMessage("users", "username", u.username))
    else if exists other :: other in users && other != id && users[other].email == u.email then
      Some(DuplicateKeyMessage("users", "email", u.email))
    else
      None
  }

  /** The duplicate-key error writing `t` under `id` raises. */
  function TeamIndexConflict(teams: map<Id, Team>, id: Id, t: Team): (e: Option<string>)
    ensures e.None? <==> forall other :: other in teams && other != id ==> teams[other].name != t.name
  {
    if exists other :: other in teams && other != id && teams[other].name == t.name then
      Some(DuplicateKeyMessage("teams", "name", t.name))
    else
      None
  }

  lemma WriteKeepsUniqueUsers(users: map<Id, User>, id: Id, u: User)
    requires UniqueUsers(users) && UserIndexConflict(users, id, u).None?
    ensures UniqueUsers(users[id := u])
  {
  }

  lemma WriteKeepsUniqueTeamNames(teams: map<Id, Team>, id: Id, t: Team)
    requires UniqueTeamNames(teams) && TeamIndexConflict(teams, id, t).None?
    ensures UniqueTeamNames(teams[id := t])
  {
  }

  // ---- arguments and the documents they produce ----

  /** `role || "Member"`: a missing or empty role becomes "Member". */
  function RegisterRole(role: Option<string>): (r: string)
    ensures Truthy(role) ==> r == role.value
    ensures !Truthy(role) ==> r == DefaultRole
  {
    if Truthy(role) then role.value else DefaultRole
  }

  /** The optional `updateUser` arguments; `id` is passed separately. */
  datatype UserArgs = UserArgs(username: Option<string>, email: Option<string>, role: Option<string>)

  /** `findByIdAndUpdate(id, args)` on a user: given fields are set (the username trimmed by
      its setter), no validator runs, and the password is never touched. */
  function ApplyUserArgs(u: User, args: UserArgs): (v: User)
    ensures v.password == u.password
    ensures args.username.None? ==> v.username == u.username
    ensures args.username.Some? ==> v.username == Trim(args.username.value)
    ensures v.email == (if args.email.Some? then args.email.value else u.email)
    ensures v.role == (if args.role.Some? then args.role.value else u.role)
  {
    User(if args.username.Some? then Trim(args.username.value) else u.username,
         if args.email.Some? then args.email.value else u.email,
         u.password,
         if args.role.Some? then args.role.value else u.role)
  }

  /** The optional `updateTeam` arguments; `id` is passed separately. */
  datatype TeamArgs = TeamArgs(
    name: Option<string>,
    description: Option<string>,
    members: Option<seq<Id>>,
    status: Option<string>,
    teamSlogan: Option<string>,
    expertiseLevel: Option<string>)

  /** `findByIdAndUpdate(id, args)` on a team: given fields are set (the name trimmed by its
      setter) and no validator runs. */
  function ApplyTeamArgs(t: Team, args: TeamArgs): (u: Team)
    ensures args.name.None? ==> u.name == t.name
    ensures args.name.Some? ==> u.name == Trim(args.name.value) && IsTrimmed(u.name)
    ensures u.description == (if args.description.Some? then args.description.value else t.description)
    ensures u.members == (if args.members.Some? then args.members.value else t.members)
    ensures u.status == (if args.status.Some? then args.status.value else t.status)
    ensures u.teamSlogan == (if args.teamSlogan.Some? then args.teamSlogan else t.teamSlogan)
    ensures u.expertiseLevel == (if args.expertiseLevel.Some? then args.expertiseLevel.value else t.expertiseLevel)
  {
    Team(if args.name.Some? then Trim(args.name.value) else t.name,
         if args.description.Some? then args.description.value else t.description,
         if args.members.Some? then args.members.value else t.members,
         if args.status.Some? then args.status.value else t.status,
         if args.teamSlogan.Some? then args.teamSlogan else t.teamSlogan,
         if args.expertiseLevel.Some? then args.expertiseLevel.value else t.expertiseLevel)
  }

  /** The `createTeam` arguments. */
  datatype NewTeamArgs = NewTeamArgs(
    name: string,
    description: string,
    members: Option<seq<Id>>,
    teamSlogan: Option<string>,
    expertiseLevel: Option<string>)

  /** The `createProject` arguments. */
  datatype NewProjectArgs = NewProjectArgs(
    name: string,
    description: string,
    teamId: Id,
    startDate: string,
    endDate: Option<string>,
    status: Option<string>)

  /** `{ ...projectData, team: teamId }`: the given `teamId` is stored under `team`. */
  function NewProject(args: NewProjectArgs): (p: Project)
    ensures p.team == args.teamId
    ensures p.name == args.name && p.description == args.description && p.startDate == args.startDate
    ensures p.endDate == args.endDate && p.status == args.status
  {
    Project(args.name, args.description, args.teamId, args.startDate, args.endDate, args.status)
  }

  /** The optional `updateProject` arguments; `id` is passed separately. `endDate` may be
      passed as `null`, which clears it. */
  datatype ProjectArgs = ProjectArgs(
    name: Option<string>,
    description: Option<string>,
    teamId: Option<Id>,
    startDate: Option<string>,
    endDate: Arg<string>,
    status: Option<string>)

  /** The update document after the rewrite: `team` replaces `teamId`. */
  datatype ProjectPatch = ProjectPatch(
    name: Option<string>,
    description: Option<string>,
    team: Option<Id>,
    startDate: Option<string>,
    endDate: Arg<string>,
    status: Option<string>)

  /** The `updateData` rewrite: a truthy `teamId` becomes `team`; an empty one stays under
      `teamId`, which is no schema path, so the team is not changed. */
  function UpdateData(args: ProjectArgs): (patch: ProjectPatch)
    ensures patch.team.Some? <==> Truthy(args.teamId)
    ensures patch.team.Some? ==> patch.team == args.teamId
    ensures patch.name == args.name && patch.description == args.description
    ensures patch.startDate == args.startDate && patch.endDate == args.endDate
    ensures patch.status == args.status
  {
    ProjectPatch(args.name, args.description, if Truthy(args.teamId) then args.teamId else None,
                 args.startDate, args.endDate, args.status)
  }

  /** `findByIdAndUpdate(id, updateData)` on a project. */
  function ApplyProjectPatch(p: Project, patch: ProjectPatch): (q: Project)
    ensures q.name == (if patch.name.Some? then patch.name.value else p.name)
    ensures q.description == (if patch.description.Some? then patch.description.value else p.description)
    ensures q.team == (if patch.team.Some? then patch.team.value else p.team)
    ensures q.startDate == (if patch.startDate.Some? then patch.startDate.value else p.startDate)
    ensures patch.endDate.Omitted? ==> q.endDate == p.endDate
    ensures patch.endDate.Null? ==> q.endDate.None?
    ensures patch.endDate.Given? ==> q.endDate == Some(patch.endDate.value)
    ensures q.status == (if patch.status.Some? then patch.status else p.status)
  {
    Project(if patch.name.Some? then patch.name.value else p.name,
            if patch.description.Some? then patch.description.value else p.description,
            if patch.team.Some? then patch.team.value else p.team,
            if patch.startDate.Some? then patch.startDate.value else p.startDate,
            match patch.endDate
            case Omitted => p.endDate
            case Null => None
            case Given(d) => Some(d),
            if patch.status.Some? then patch.status else p.status)
  }

  /** An `updateProject` moves the project to the given team exactly when `teamId` is truthy. */
  lemma UpdateProjectTeam(p: Project, args: ProjectArgs)
    ensures ApplyProjectPatch(p, UpdateData(args)).team
            == (if Truthy(args.teamId) then args.teamId.value else p.team)
  {
  }

  // ---- cascades ----

  /** `Team.updateMany({ members: id }, { $pull: { members: id } })`: `userId` leaves every
      team; the other members, in order, and every other field stay. */
  function PullEverywhere(teams: map<Id, Team>, userId: Id): (r: map<Id, Team>)
    ensures r.Keys == teams.Keys
    ensures forall t :: t in r ==> userId !in r[t].members
    ensures forall t :: t in r ==> r[t].members == Without(teams[t].members, userId)
    ensures forall t :: t in r ==> r[t].(members := teams[t].members) == teams[t]
  {
    map t | t in teams :: teams[t].(members := Without(teams[t].members, userId))
  }

  /** `Project.deleteMany({ team: id })`: exactly the projects of other teams remain, unchanged. */
  function DropTeamProjects(projects: map<Id, Project>, teamId: Id): (r: map<Id, Project>)
    ensures forall p :: p in r <==> p in projects && projects[p].team != teamId
    ensures forall p :: p in r ==> r[p] == projects[p]
  {
    map p | p in projects && projects[p].team != teamId :: projects[p]
  }

  lemma PullKeepsUniqueTeamNames(teams: map<Id, Team>, userId: Id)
    requires UniqueTeamNames(teams)
    ensures UniqueTeamNames(PullEverywhere(teams, userId))
  {
    var r := PullEverywhere(teams, userId);
    forall a, b | a in r && b in r && a != b ensures r[a].name != r[b].name {
      assert r[a].name == teams[a].name && r[b].name == teams[b].name;
    }
  }

  // ---- the status-update policy ----

  /** The checks `updateProjectStatus` makes before writing: an authenticated caller, an
      existing project, and, unless the caller is an Admin, membership of the project's team. */
  function StatusUpdateCheck(caller: Option<Principal>, id: Id, projects: map<Id, Project>,
                             teams: map<Id, Team>): (o: Outcome)
    ensures o.Pass? <==>
      && caller.Some? && id in projects
      && (caller.value.profile.role == AdminRole
          || (projects[id].team in teams && caller.value.id in teams[projects[id].team].members))
    ensures caller.None? ==> o == Fail(NotAuthenticated)
    ensures caller.Some? && id !in projects ==> o == Fail(ProjectNotFound(id))
    ensures caller.Some? && id in projects && caller.value.profile.role != AdminRole ==>
      && (projects[id].team !in teams ==> o == Fail(MissingTeamError))
      && (projects[id].team in teams && caller.value.id !in teams[projects[id].team].members ==>
            o == Fail(NotAuthorized))
  {
    if caller.None? then Fail(NotAuthenticated)
    else if id !in projects then Fail(ProjectNotFound(id))
    else if caller.value.profile.role != AdminRole then
      if projects[id].team !in teams then Fail(MissingTeamError)
      else if caller.value.id !in teams[projects[id].team].members then Fail(NotAuthorized)
      else Pass
    else Pass
  }

  /** An Admin may set the status of any existing project; a caller who is neither an Admin
      nor a member of the project's team never may. */
  lemma StatusPolicy(caller: Principal, id: Id, projects: map<Id, Project>, teams: map<Id, Team>)
    requires id in projects
    ensures caller.profile.role == AdminRole ==> StatusUpdateCheck(Some(caller), id, projects, teams).Pass?
    ensures caller.profile.role != AdminRole
            && (projects[id].team in teams ==> caller.id !in teams[projects[id].team].members)
            ==> StatusUpdateCheck(Some(caller), id, projects, teams).Fail?
  {
  }

  /** After `logout` the `token` cookie is "none": it is truthy, so it still wins over any
      Authorization header, and as it is no valid token the request is anonymous. */
  lemma LogoutMakesAnonymous(header: Option<string>, verify: Verifier, users: map<Id, User>)
    requires verify(LogoutCookie).None?
    ensures SelectToken(Request(Some(LogoutCookie), header)) == Some(LogoutCookie)
    ensures Authenticate(Request(Some(LogoutCookie), header), verify, users).None?
  {
  }

  /** A Member passes `updateUser`'s guard for their own id, and the update sets whatever
      role it is given. */
  lemma SelfUpdateMaySetRole(caller: Principal, u: User, role: string)
    ensures IsAdminOrSelf(Some(caller), caller.id).Pass?
    ensures ApplyUserArgs(u, UserArgs(None, None, Some(role))).role == role
  {
  }

  /** The user `register` would store under `newId`, or its error: a taken email fails
      with "User already exists"; otherwise the user is created with role "Member" unless
      a truthy role is given, and must pass the schema and then the unique indexes.
      `RegistrationOutcome` states this case by case. */
  function Registration(users: map<Id, User>, username: string, email: string, password: string,
                        role: Option<string>, newId: Id): (r: Result<User>)
    ensures r.Ok? ==> UserIndexConflict(users, newId, r.value).None?
  {
    if EmailTaken(users, email) then Err(UserExists)
    else
      var c := CreateUser(username, email, password, Some(RegisterRole(role)));
      if c.Err? then c
      else
        var conflict := UserIndexConflict(users, newId, c.value);
        if conflict.Some? then Err(conflict.value) else c
  }

  /** A taken email fails with "User already exists" (so no user is created); a schema
      error comes next, then a unique-index error; a registered user is valid, has the
      given email and password, the trimmed username and the defaulted role. */
  lemma RegistrationOutcome(users: map<Id, User>, username: string, email: string, password: string,
                            role: Option<string>, newId: Id)
    ensures var r := Registration(users, username, email, password, role, newId);
      && (EmailTaken(users, email) ==> r == Err(UserExists))
      && (!EmailTaken(users, email) ==>
            var c := CreateUser(username, email, password, Some(RegisterRole(role)));
            && (c.Err? ==> r == Err(c.msg))
            && (c.Ok? && UserIndexConflict(users, newId, c.value).Some? ==>
                  r == Err(UserIndexConflict(users, newId, c.value).value)))
      && (r.Ok? ==> && ValidUser(r.value) && r.value.email == email
                    && r.value.username == Trim(username) && r.value.password == password
                    && r.value.role == RegisterRole(role))
  {
  }

  /** The team `createTeam` would store under `newId`, or the error it reports after
      the prefix: the schema's, then the unique name index's. */
  function TeamCreation(teams: map<Id, Team>, args: NewTeamArgs, newId: Id): (r: Result<Team>)
    ensures r.Ok? ==> TeamIndexConflict(teams, newId, r.value).None?
  {
    var c := TeamModel.CreateTeam(args.name, args.description, args.members, args.teamSlogan,
                                  args.expertiseLevel);
    if c.Err? then c
    else
      var conflict := TeamIndexConflict(teams, newId, c.value);
      if conflict.Some? then Err(conflict.value) else c
  }

  /** A created team is valid and is the defaulted draft; otherwise the schema's error
      comes first, then the unique name index's. */
  lemma TeamCreationOutcome(teams: map<Id, Team>, args: NewTeamArgs, newId: Id)
    ensures var r := TeamCreation(teams, args, newId);
      var c := TeamModel.CreateTeam(args.name, args.description, args.members, args.teamSlogan,
                                    args.expertiseLevel);
      && (c.Err? ==> r == c)
      && (c.Ok? && TeamIndexConflict(teams, newId, c.value).Some? ==>
            r == Err(TeamIndexConflict(teams, newId, c.value).value))
      && (r.Ok? ==> && ValidTeam(r.value)
                    && r.value == TeamDraft(args.name, args.description, args.members,
                                            args.teamSlogan, args.expertiseLevel))
  {
  }

  class Store {
    var users: map<Id, User>
    var teams: map<Id, Team>
    var projects: map<Id, Project>

    /** The unique indexes hold. */
    ghost predicate Valid()
      reads this
    {
      UniqueUsers(users) && UniqueTeamNames(teams)
    }

    constructor ()
      ensures Valid()
      ensures users == map[] && teams == map[] && projects == map[]
    {
      users, teams, projects := map[], map[], map[];
    }

    /** `authenticate(req)` against the users table. */
    function Caller(req: Request, verify: Verifier): Option<Principal>
      reads this
    {
      Authenticate(req, verify, users)
    }

    // ---- queries ----

    /** `me`: the caller's own profile, for an authenticated caller only. */
    function Me(req: Request, verify: Verifier): (r: Result<Profile>)
      reads this
      ensures r.Ok? <==> Caller(req, verify).Some?
      ensures r.Ok? ==> r.value == ProfileOf(users[Caller(req, verify).value.id])
      ensures r.Err? ==> r.msg == NotAuthenticated
    {
      var caller := Caller(req, verify);
      var g := IsAuthenticated(caller);
      if g.Fail? then Err(g.msg) else Ok(caller.value.profile)
    }

    /** `users`: every profile (never a password), for an Admin only. */
    function AllUsers(req: Request, verify: Verifier): (r: Result<map<Id, Profile>>)
      reads this
      ensures r.Ok? <==> IsAdmin(Caller(req, verify)).Pass?
      ensures r.Err? ==> r.msg == NotAuthorized
      ensures r.Ok? ==> r.value.Keys == users.Keys
                        && forall id :: id in r.value ==> r.value[id] == ProfileOf(users[id])
    {
      var g := IsAdmin(Caller(req, verify));
      if g.Fail? then Err(g.msg) else Ok(map id | id in users :: ProfileOf(users[id]))
    }

    /** `user(id)`: a profile, or null when absent, for an Admin or the user themself. */
    function UserById(req: Request, verify: Verifier, id: Id): (r: Result<Option<Profile>>)
      reads this
      ensures r.Ok? <==> IsAdminOrSelf(Caller(req, verify), id).Pass?
      ensures r.Err? ==> r.msg == NotAuthorized
      ensures r.Ok? ==> (r.value.Some? <==> id in users)
      ensures r.Ok? && r.value.Some? ==> r.value.value == ProfileOf(users[id])
    {
      var g := IsAdminOrSelf(Caller(req, verify), id);
      if g.Fail? then Err(g.msg)
      else if id in users then Ok(Some(ProfileOf(users[id])))
      else Ok(None)
    }

    /** `teams`: the whole table; it reads no token. */
    function AllTeams(): (r: map<Id, Team>)
      reads this
      ensures r.Keys == teams.Keys && forall id :: id in r ==> r[id] == teams[id]
    {
      teams
    }

    /** `team(id)`: the team, or null; it reads no token. */
    function TeamById(id: Id): (r: Option<Team>)
      reads this
      ensures r.Some? <==> id in teams
      ensures r.Some? ==> r.value == teams[id]
    {
      if id in teams then Some(teams[id]) else None
    }

    /** `teamsByMember(userId)`: exactly the teams listing `userId`; it reads no token. */
    function TeamsByMember(userId: Id): (r: map<Id, Team>)
      reads this
      ensures forall id :: id in r <==> id in teams && userId in teams[id].members
      ensures forall id :: id in r ==> r[id] == teams[id]
    {
      map id | id in teams && userId in teams[id].members :: teams[id]
    }

    /** `projects`: the whole table; it reads no token. */
    function AllProjects(): (r: map<Id, Project>)
      reads this
      ensures r.Keys == projects.Keys && forall id :: id in r ==> r[id] == projects[id]
    {
      projects
    }

    /** `project(id)`: the project, or null; it reads no token. */
    function ProjectById(id: Id): (r: Option<Project>)
      reads this
      ensures r.Some? <==> id in projects
      ensures r.Some? ==> r.value == projects[id]
    {
      if id in projects then Some(projects[id]) else None
    }

    /** `projectsByTeam(teamId)`: exactly the projects whose team is `teamId`; it reads no token. */
    function ProjectsByTeam(teamId: Id): (r: map<Id, Project>)
      reads this
      ensures forall id :: id in r <==> id in projects && projects[id].team == teamId
      ensures forall id :: id in r ==> r[id] == projects[id]
    {
      map id | id in projects && projects[id].team == teamId :: projects[id]
    }

    // ---- mutations ----

    /** `register`: writes exactly the user `Registration` accepts, and on success returns
        the token signed for the new id. */
    method Register(username: string, email: string, password: string, role: Option<string>,
                    newId: Id, sign: Signer) returns (r: Result<AuthPayload>)
      requires Valid() && newId !in users
      modifies this`users
      ensures Valid()
      ensures var c := Registration(old(users), username, email, password, role, newId);
        && (c.Err? ==> r == Err(c.msg) && users == old(users))
        && (c.Ok? ==> r == Ok(AuthPayload(sign(newId), newId)) && users == old(users)[newId := c.value])
    {
      var c := Registration(users, username, email, password, role, newId);
      if c.Err? {
        return Err(c.msg);
      }
      WriteKeepsUniqueUsers(users, newId, c.value);
      users := users[newId := c.value];
      r := Ok(AuthPayload(sign(newId), newId));
    }

    /** `login`: succeeds exactly when a user has this email and the password matches it;
        an unknown email and a wrong password fail with the same message. */
    method Login(email: string, password: string, matches: PasswordCheck, sign: Signer)
      returns (r: Result<AuthPayload>)
      requires Valid()
      ensures r.Err? ==> r.msg == InvalidCredentials
      ensures r.Ok? <==> exists id :: id in users && users[id].email == email
                                      && matches(password, users[id].password)
      ensures r.Ok? ==> && r.value.userId in users && users[r.value.userId].email == email
                        && r.value.token == sign(r.value.userId)
    {
      if !EmailTaken(users, email) {
        return Err(InvalidCredentials);
      }
      var id :| id in users && users[id].email == email;
      if !matches(password, users[id].password) {
        return Err(InvalidCredentials);
      }
      r := Ok(AuthPayload(sign(id), id));
    }

    /** `updateUser`: for an Admin or the user themself, sets the given fields of an
        existing user (null when absent), subject only to the unique indexes. */
    method UpdateUser(req: Request, verify: Verifier, id: Id, args: UserArgs)
      returns (r: Result<Option<Profile>>)
      requires Valid()
      modifies this`users
      ensures Valid()
      ensures var g := IsAdminOrSelf(Authenticate(req, verify, old(users)), id);
        && (g.Fail? ==> r == Err(NotAuthorized) && users == old(users))
        && (g.Pass? && id !in old(users) ==> r == Ok(None) && users == old(users))
        && (g.Pass? && id in old(users) ==>
              var u := ApplyUserArgs(old(users)[id], args);
              && (UserIndexConflict(old(users), id, u).Some? ==>
                    r == Err(UserIndexConflict(old(users), id, u).value) && users == old(users))
              && (UserIndexConflict(old(users), id, u).None? ==>
                    r == Ok(Some(ProfileOf(u))) && users == old(users)[id := u]))
    {
      var g := IsAdminOrSelf(Caller(req, verify), id);
      if g.Fail? {
        return Err(g.msg);
      }
      if id !in users {
        return Ok(None);
      }
      var u := ApplyUserArgs(users[id], args);
      var conflict := UserIndexConflict(users, id, u);
      if conflict.Some? {
        return Err(conflict.value);
      }
      WriteKeepsUniqueUsers(users, id, u);
      users := users[id := u];
      r := Ok(Some(ProfileOf(u)));
    }

    /** `deleteUser`: for an Admin, removes an existing user and then pulls its id from
        every team's members; projects are untouched. */
    method DeleteUser(req: Request, verify: Verifier, id: Id) returns (r: Result<bool>)
      requires Valid()
      modifies this`users, this`teams
      ensures Valid()
      ensures var g := IsAdmin(Authenticate(req, verify, old(users)));
        && (g.Fail? ==> r == Err(NotAuthorized) && users == old(users) && teams == old(teams))
        && (g.Pass? && id !in old(users) ==>
              r == Err(UserNotFound(id)) && users == old(users) && teams == old(teams))
        && (g.Pass? && id in old(users) ==>
              r == Ok(true) && users == old(users) - {id} && teams == PullEverywhere(old(teams), id))
      ensures r.Ok? ==> id !in users && forall t :: t in teams ==> id !in teams[t].members
    {
      var g := IsAdmin(Caller(req, verify));
      if g.Fail? {
        return Err(g.msg);
      }
      if id !in users {
        return Err(UserNotFound(id));
      }
      users := users - {id};
      PullKeepsUniqueTeamNames(teams, id);
      teams := PullEverywhere(teams, id);
      r := Ok(true);
    }

    /** `createTeam`: for an Admin, stores what `TeamCreation` accepts; every failure, the
        guard's included, is reported as "Failed to create team: <message>". */
    method CreateTeam(req: Request, verify: Verifier, args: NewTeamArgs, newId: Id)
      returns (r: Result<Id>)
      requires Valid() && newId !in teams
      modifies this`teams
      ensures Valid()
      ensures var g := IsAdmin(Authenticate(req, verify, users));
        var c := TeamCreation(old(teams), args, newId);
        && (g.Fail? ==> r == Err(CreateTeamPrefix + NotAuthorized) && teams == old(teams))
        && (g.Pass? && c.Err? ==> r == Err(CreateTeamPrefix + c.msg) && teams == old(teams))
        && (g.Pass? && c.Ok? ==> r == Ok(newId) && teams == old(teams)[newId := c.value])
      ensures r.Err? ==> StartsWith(r.msg, CreateTeamPrefix)
    {
      var g := IsAdmin(Caller(req, verify));
      if g.Fail? {
        StartsWithConcat(CreateTeamPrefix, g.msg);
        return Err(CreateTeamPrefix + g.msg);
      }
      var c := TeamCreation(teams, args, newId);
      if c.Err? {
        StartsWithConcat(CreateTeamPrefix, c.msg);
        return Err(CreateTeamPrefix + c.msg);
      }
      WriteKeepsUniqueTeamNames(teams, newId, c.value);
      teams := teams[newId := c.value];
      r := Ok(newId);
    }

    /** `updateTeam`: for an Admin, sets the given fields of an existing team (null when
        absent), subject only to the unique name index. */
    method UpdateTeam(req: Request, verify: Verifier, id: Id, args: TeamArgs)
      returns (r: Result<Option<Team>>)
      requires Valid()
      modifies this`teams
      ensures Valid()
      ensures var g := IsAdmin(Authenticate(req, verify, users));
        && (g.Fail? ==> r == Err(NotAuthorized) && teams == old(teams))
        && (g.Pass? && id !in old(teams) ==> r == Ok(None) && teams == old(teams))
        && (g.Pass? && id in old(teams) ==>
              var t := ApplyTeamArgs(old(teams)[id], args);
              && (TeamIndexConflict(old(teams), id, t).Some? ==>
                    r == Err(TeamIndexConflict(old(teams), id, t).value) && teams == old(teams))
              && (TeamIndexConflict(old(teams), id, t).None? ==>
                    r == Ok(Some(t)) && teams == old(teams)[id := t]))
    {
      var g := IsAdmin(Caller(req, verify));
      if g.Fail? {
        return Err(g.msg);
      }
      if id !in teams {
        return Ok(None);
      }
      var t := ApplyTeamArgs(teams[id], args);
      var conflict := TeamIndexConflict(teams, id, t);
      if conflict.Some? {
        return Err(conflict.value);
      }
      WriteKeepsUniqueTeamNames(teams, id, t);
      teams := teams[id := t];
      r := Ok(Some(t));
    }

    /** `deleteTeam`: for an Admin, deletes an existing team and then every project of
        that team. */
    method DeleteTeam(req: Request, verify: Verifier, id: Id) returns (r: Result<bool>)
      requires Valid()
      modifies this`teams, this`projects
      ensures Valid()
      ensures var g := IsAdmin(Authenticate(req, verify, users));
        && (g.Fail? ==> r == Err(NotAuthorized) && teams == old(teams) && projects == old(projects))
        && (g.Pass? && id !in old(teams) ==>
              r == Err(TeamNotFound(id)) && teams == old(teams) && projects == old(projects))
        && (g.Pass? && id in old(teams) ==>
              r == Ok(true) && teams == old(teams) - {id} && projects == DropTeamProjects(old(projects), id))
      ensures r.Ok? ==> id !in teams && forall p :: p in projects ==> projects[p].team != id
    {
      var g := IsAdmin(Caller(req, verify));
      if g.Fail? {
        return Err(g.msg);
      }
      if id !in teams {
        return Err(TeamNotFound(id));
      }
      teams := teams - {id};
      projects := DropTeamProjects(projects, id);
      r := Ok(true);
    }

    /** `addMemberToTeam`: for an Admin, `$addToSet` on the named team's members (null when
        the team is absent); no other team changes and a repeat call changes nothing. */
    method AddMemberToTeam(req: Request, verify: Verifier, teamId: Id, userId: Id)
      returns (r: Result<Option<Team>>)
      requires Valid()
      modifies this`teams
      ensures Valid()
      ensures var g := IsAdmin(Authenticate(req, verify, users));
        && (g.Fail? ==> r == Err(NotAuthorized) && teams == old(teams))
        && (g.Pass? && teamId !in old(teams) ==> r == Ok(None) && teams == old(teams))
        && (g.Pass? && teamId in old(teams) ==>
              var t := old(teams)[teamId].(members := AddToSet(old(teams)[teamId].members, userId));
              r == Ok(Some(t)) && teams == old(teams)[teamId := t])
      ensures r.Ok? && r.value.Some? ==>
        && userId in teams[teamId].members
        && AddToSet(teams[teamId].members, userId) == teams[teamId].members
    {
      var g := IsAdmin(Caller(req, verify));
      if g.Fail? {
        return Err(g.msg);
      }
      if teamId !in teams {
        return Ok(None);
      }
      var t := teams[teamId].(members := AddToSet(teams[teamId].members, userId));
      assert TeamIndexConflict(teams, teamId, t).None?;
      WriteKeepsUniqueTeamNames(teams, teamId, t);
      teams := teams[teamId := t];
      r := Ok(Some(t));
    }

    /** `removeMemberFromTeam`: for an Admin, `$pull` on the named team's members (null when
        the team is absent); no other team changes and a repeat call changes nothing. */
    method RemoveMemberFromTeam(req: Request, verify: Verifier, teamId: Id, userId: Id)
      returns (r: Result<Option<Team>>)
      requires Valid()
      modifies this`teams
      ensures Valid()
      ensures var g := IsAdmin(Authenticate(req, verify, users));
        && (g.Fail? ==> r == Err(NotAuthorized) && teams == old(teams))
        && (g.Pass? && teamId !in old(teams) ==> r == Ok(None) && teams == old(teams))
        && (g.Pass? && teamId in old(teams) ==>
              var t := old(teams)[teamId].(members := Without(old(teams)[teamId].members, userId));
              r == Ok(Some(t)) && teams == old(teams)[teamId := t])
      ensures r.Ok? && r.value.Some? ==>
        && userId !in teams[teamId].members
        && Without(teams[teamId].members, userId) == teams[teamId].members
    {
      var g := IsAdmin(Caller(req, verify));
      if g.Fail? {
        return Err(g.msg);
      }
      if teamId !in teams {
        return Ok(None);
      }
      var t := teams[teamId].(members := Without(teams[teamId].members, userId));
      assert TeamIndexConflict(teams, teamId, t).None?;
      WriteKeepsUniqueTeamNames(teams, teamId, t);
      WithoutAbsent(t.members, userId);
      teams := teams[teamId := t];
      r := Ok(Some(t));
    }

    /** `createProject`: for an Admin, stores the project with the given `teamId` as its team. */
    method CreateProject(req: Request, verify: Verifier, args: NewProjectArgs, newId: Id)
      returns (r: Result<Id>)
      requires Valid() && newId !in projects
      modifies this`projects
      ensures Valid()
      ensures var g := IsAdmin(Authenticate(req, verify, users));
        && (g.Fail? ==> r == Err(NotAuthorized) && projects == old(projects))
        && (g.Pass? ==> r == Ok(newId) && projects == old(projects)[newId := NewProject(args)])
    {
      var g := IsAdmin(Caller(req, verify));
      if g.Fail? {
        return Err(g.msg);
      }
      projects := projects[newId := NewProject(args)];
      r := Ok(newId);
    }

    /** `updateProject`: for an Admin, applies the rewritten update to an existing project
        (null when absent). */
    method UpdateProject(req: Request, verify: Verifier, id: Id, args: ProjectArgs)
      returns (r: Result<Option<Project>>)
      requires Valid()
      modifies this`projects
      ensures Valid()
      ensures var g := IsAdmin(Authenticate(req, verify, users));
        && (g.Fail? ==> r == Err(NotAuthorized) && projects == old(projects))
        && (g.Pass? && id !in old(projects) ==> r == Ok(None) && projects == old(projects))
        && (g.Pass? && id in old(projects) ==>
              var p := ApplyProjectPatch(old(projects)[id], UpdateData(args));
              r == Ok(Some(p)) && projects == old(projects)[id := p])
    {
      var g := IsAdmin(Caller(req, verify));
      if g.Fail? {
        return Err(g.msg);
      }
      if id !in projects {
        return Ok(None);
      }
      var p := ApplyProjectPatch(projects[id], UpdateData(args));
      projects := projects[id := p];
      r := Ok(Some(p));
    }

    /** `deleteProject`: for an Admin, deletes an existing project. */
    method DeleteProject(req: Request, verify: Verifier, id: Id) returns (r: Result<bool>)
      requires Valid()
      modifies this`projects
      ensures Valid()
      ensures var g := IsAdmin(Authenticate(req, verify, users));
        && (g.Fail? ==> r == Err(NotAuthorized) && projects == old(projects))
        && (g.Pass? && id !in old(projects) ==> r == Err(ProjectNotFound(id)) && projects == old(projects))
        && (g.Pass? && id in old(projects) ==> r == Ok(true) && projects == old(projects) - {id})
    {
      var g := IsAdmin(Caller(req, verify));
      if g.Fail? {
        return Err(g.msg);
      }
      if id !in projects {
        return Err(ProjectNotFound(id));
      }
      projects := projects - {id};
      r := Ok(true);
    }

    /** `updateProjectStatus`: after `StatusUpdateCheck` passes, only that project's
        status changes; when it fails nothing changes. */
    method UpdateProjectStatus(req: Request, verify: Verifier, id: Id, status: string)
      returns (r: Result<Project>)
      requires Valid()
      modifies this`projects
      ensures Valid()
      ensures var o := StatusUpdateCheck(Authenticate(req, verify, users), id, old(projects), teams);
        && (o.Fail? ==> r == Err(o.msg) && projects == old(projects))
        && (o.Pass? ==> var p := old(projects)[id].(status := Some(status));
              r == Ok(p) && projects == old(projects)[id := p])
    {
      var o := StatusUpdateCheck(Caller(req, verify), id, projects, teams);
      if o.Fail? {
        return Err(o.msg);
      }
      var p := projects[id].(status := Some(status));
      projects := projects[id := p];
      r := Ok(p);
    }
  }

  /** `logout`: the cookie value it sets and its result. */
  datatype LogoutResponse = LogoutResponse(cookie: string, result: bool)

  function Logout(): (r: LogoutResponse)
    ensures r.result && r.cookie == LogoutCookie
  {
    LogoutResponse(LogoutCookie, true)
  }
}
