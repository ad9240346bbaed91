/** The tables of the team work tracker, and what each of its calls does to them. */
module TrackerTables {
  import opened Order
  import opened Wrappers

  datatype Role = Admin | Member

  /** The stored text `salt$digest`, kept as its two halves; a drawn salt holds no dollar sign. */
  datatype PasswordHash = PasswordHash(salt: string, digest: string)

  datatype User = User(username: string, role: Role, passwordHash: PasswordHash, createdAt: nat)

  datatype Session = Session(userId: string, createdAt: nat)

  datatype Project = Project(name: string, description: string, createdAt: nat, updatedAt: nat)

  datatype Task = Task(projectId: string, title: string, description: string, assignee: Option<string>, status: string,
                       priority: string, dueDate: Option<string>, createdAt: nat, updatedAt: nat)

  datatype Action = CreatedUser | CreatedProject | AddedMember | CreatedTask | UpdatedTask

  datatype Event = Event(id: string, actor: string, action: Action, entity: string, at: nat)

  /** Tables with a one-column key are maps; memberships are rows, kept distinct by their two-column key. */
  datatype Tables = Tables(users: map<string, User>, sessions: map<string, Session>, projects: map<string, Project>,
                           memberships: seq<(string, string)>, tasks: map<string, Task>, audit: seq<Event>)

  const EMPTY := Tables(map[], map[], map[], [], map[], [])

  datatype Error = PermissionError | ValueError | KeyError | IntegrityError

  datatype Result<+T> = Accepted(value: T) | Rejected(error: Error)

  datatype Reply =
    | LoggedIn(token: string, user: string) | LoggedOut | UserCreated(user: string) | ProjectRow(id: string, project: Project)
    | MemberAdded | TaskRow(taskId: string, task: Task)

  /** A request body: absent keys are missing, null values are None. */
  type Payload = map<string, Option<string>>

  /** The key derivation: the digest of a password under a salt. */
  type Derive = (string, string) -> string

  function HashPassword(derive: Derive, password: string, salt: string): PasswordHash {
    PasswordHash(salt, derive(password, salt))
  }

  predicate CheckPassword(derive: Derive, password: string, stored: PasswordHash) {
    derive(password, stored.salt) == stored.digest
  }

  // ----- Lookups -----

  predicate HasAdmin(users: map<string, User>) {
    exists id | id in users :: users[id].role == Admin
  }

  predicate NameTaken(users: map<string, User>, name: string) {
    exists id | id in users :: users[id].username == name
  }

  function FirstNamed(users: map<string, User>, ids: seq<string>, name: string): (found: Option<string>)
    ensures found.Some? ==> found.value in users
  {
    if ids == [] then None
    else if ids[0] in users && users[ids[0]].username == name then Some(ids[0])
    else FirstNamed(users, ids[1..], name)
  }

  function UserNamed(users: map<string, User>, name: string): Option<string> {
    FirstNamed(users, Sorted(users.Keys), name)
  }

  /** The session's user, through the join of sessions and users. */
  function RequireUser(t: Tables, token: string): Result<string> {
    if token in t.sessions && t.sessions[token].userId in t.users then Accepted(t.sessions[token].userId)
    else Rejected(PermissionError)
  }

  function RequireAdmin(t: Tables, token: string): Result<string> {
    var actor := RequireUser(t, token);
    if actor.Rejected? then actor
    else if t.users[actor.value].role == Admin then actor
    else Rejected(PermissionError)
  }

  predicate MayAccess(t: Tables, user: string, project: string) {
    user in t.users && (t.users[user].role == Admin || (project, user) in t.memberships)
  }

  predicate ValidStatus(s: string) {
    s == "todo" || s == "in_progress" || s == "done"
  }

  predicate EventTaken(audit: seq<Event>, id: string) {
    exists e | e in audit :: e.id == id
  }

  // ----- Calls that change tables: each gives the new tables and the reply -----

  type Effect = (Tables, Result<Reply>)

  /** A call's last statement: the event is inserted under its drawn id, after the rest has been committed. */
  function Log(t: Tables, e: Event, reply: Reply): Effect {
    if EventTaken(t.audit, e.id) then (t, Rejected(IntegrityError))
    else (t.(audit := t.audit + [e]), Accepted(reply))
  }

  function Login(derive: Derive, t: Tables, name: string, password: string, token: string, at: nat): Effect {
    var id := UserNamed(t.users, name);
    if id.None? || !CheckPassword(derive, password, t.users[id.value].passwordHash) then (t, Rejected(PermissionError))
    else if token in t.sessions then (t, Rejected(IntegrityError))
    else (t.(sessions := t.sessions[token := Session(id.value, at)]), Accepted(LoggedIn(token, id.value)))
  }

  function Logout(t: Tables, token: string): Effect {
    (t.(sessions := t.sessions - {token}), Accepted(LoggedOut))
  }

  predicate KnownRole(role: string) { role == "admin" || role == "member" }

  function UserRow(name: string, hash: PasswordHash, role: string, at: nat): User {
    User(name, if role == "admin" then Admin else Member, hash, at)
  }

  /** The actor is missing for the first administrator, whose creation leaves no event. */
  function InsertUser(t: Tables, actor: Option<string>, name: string, hash: PasswordHash, role: string, id: string, event: string, at: nat): Effect {
    if !KnownRole(role) then (t, Rejected(ValueError))
    else if id in t.users || NameTaken(t.users, name) then (t, Rejected(IntegrityError))
    else
      var grown := t.(users := t.users[id := UserRow(name, hash, role, at)]);
      match actor
      case None => (grown, Accepted(UserCreated(id)))
      case Some(a) => Log(grown, Event(event, a, CreatedUser, id, at), UserCreated(id))
  }

  function Bootstrap(derive: Derive, t: Tables, name: string, password: string, salt: string, id: string, token: string, at: nat): Effect {
    if HasAdmin(t.users) then Login(derive, t, name, password, token, at)
    else
      var created := InsertUser(t, None, name, HashPassword(derive, password, salt), "admin", id, "", at);
      if created.1.Rejected? then created else Login(derive, created.0, name, password, token, at)
  }

  function CreateUser(derive: Derive, t: Tables, token: string, name: string, password: string, salt: string, role: string, id: string,
                      event: string, at: nat): Effect {
    var actor := RequireAdmin(t, token);
    if actor.Rejected? then (t, Rejected(actor.error))
    else InsertUser(t, Some(actor.value), name, HashPassword(derive, password, salt), role, id, event, at)
  }

  /** The project row is committed before its first membership is, and that before the event. */
  function CreateProject(t: Tables, token: string, name: string, description: string, id: string, event: string, at: nat): Effect {
    var actor := RequireAdmin(t, token);
    if actor.Rejected? then (t, Rejected(actor.error))
    else if id in t.projects then (t, Rejected(IntegrityError))
    else
      var row := Project(name, description, at, at);
      var grown := t.(projects := t.projects[id := row]);
      if (id, actor.value) in t.memberships then (grown, Rejected(IntegrityError))
      else Log(grown.(memberships := grown.memberships + [(id, actor.value)]), Event(event, actor.value, CreatedProject, id, at), ProjectRow(id, row))
  }

  function WithMember(t: Tables, row: (string, string)): Tables {
    if row in t.memberships then t else t.(memberships := t.memberships + [row])
  }

  /** Neither the project nor the user is looked up; a repeated membership is ignored but still audited. */
  function AddMember(t: Tables, token: string, project: string, user: string, event: string, at: nat): Effect {
    var actor := RequireAdmin(t, token);
    if actor.Rejected? then (t, Rejected(actor.error))
    else Log(WithMember(t, (project, user)), Event(event, actor.value, AddedMember, project, at), MemberAdded)
  }

  function GetOr(p: Payload, key: string, default: Option<string>): Option<string> {
    if key in p then p[key] else default
  }

  function CreateTask(t: Tables, token: string, p: Payload, id: string, event: string, at: nat): Effect {
    var actor := RequireUser(t, token);
    if actor.Rejected? then (t, Rejected(actor.error))
    else if "project_id" !in p then (t, Rejected(KeyError))
    else if p["project_id"].None? then (t, Rejected(if t.users[actor.value].role == Admin then NullProject(p) else PermissionError))
    else
      var project := p["project_id"].value;
      if !MayAccess(t, actor.value, project) then (t, Rejected(PermissionError))
      else
        var row := NewTask(p, project, at);
        if row.Rejected? then (t, Rejected(row.error))
        else if id in t.tasks then (t, Rejected(IntegrityError))
        else Log(t.(tasks := t.tasks[id := row.value]), Event(event, actor.value, CreatedTask, id, at), TaskRow(id, row.value))
  }

  /** An administrator's null project passes the access check and fails at the latest on insertion. */
  function NullProject(p: Payload): Error {
    var status := GetOr(p, "status", Some("todo"));
    if status.None? || !ValidStatus(status.value) then ValueError else if "title" !in p then KeyError else IntegrityError
  }

  function NewTask(p: Payload, project: string, at: nat): Result<Task> {
    var status := GetOr(p, "status", Some("todo"));
    if status.None? || !ValidStatus(status.value) then Rejected(ValueError)
    else if "title" !in p then Rejected(KeyError)
    else
      var title, description, priority := p["title"], GetOr(p, "description", Some("")), GetOr(p, "priority", Some("medium"));
      if title.None? || description.None? || priority.None? then Rejected(IntegrityError)
      else Accepted(Task(project, title.value, description.value, GetOr(p, "assignee_id", None), status.value, priority.value,
                         GetOr(p, "due_date", None), at, at))
  }

  predicate Updates(p: Payload) {
    || "title" in p || "description" in p || "assignee_id" in p || "status" in p || "priority" in p || "due_date" in p
  }

  function Updated(task: Task, p: Payload, at: nat): Result<Task> {
    var status := GetOr(p, "status", Some(task.status));
    if "status" in p && (status.None? || !ValidStatus(status.value)) then Rejected(ValueError)
    else
      var title, description := GetOr(p, "title", Some(task.title)), GetOr(p, "description", Some(task.description));
      var priority := GetOr(p, "priority", Some(task.priority));
      if title.None? || description.None? || priority.None? then Rejected(IntegrityError)
      else Accepted(Task(task.projectId, title.value, description.value, GetOr(p, "assignee_id", task.assignee), status.value,
                         priority.value, GetOr(p, "due_date", task.dueDate), task.createdAt, at))
  }

  /** Keys that are not updatable, the project among them, are ignored. */
  function UpdateTask(t: Tables, token: string, id: string, p: Payload, event: string, at: nat): Effect {
    var actor := RequireUser(t, token);
    if actor.Rejected? then (t, Rejected(actor.error))
    else if id !in t.tasks then (t, Rejected(KeyError))
    else if !MayAccess(t, actor.value, t.tasks[id].projectId) then (t, Rejected(PermissionError))
    else if !Updates(p) then (t, Accepted(TaskRow(id, t.tasks[id])))
    else
      var row := Updated(t.tasks[id], p, at);
      if row.Rejected? then (t, Rejected(row.error))
      else Log(t.(tasks := t.tasks[id := row.value]), Event(event, actor.value, UpdatedTask, id, at), TaskRow(id, row.value))
  }

  // ----- Calls and runs -----

  /** A call with the ids and the salt it draws. */
  datatype Call =
    | CallBootstrap(name: string, password: string, salt: string, id: string, token: string)
    | CallLogin(name: string, password: string, token: string)
    | CallLogout(token: string)
    | CallCreateUser(token: string, name: string, password: string, salt: string, role: string, id: string, event: string)
    | CallCreateProject(token: string, name: string, description: string, id: string, event: string)
    | CallAddMember(token: string, project: string, user: string, event: string)
    | CallCreateTask(token: string, payload: Payload, id: string, event: string)
    | CallUpdateTask(token: string, id: string, payload: Payload, event: string)

  function Step(derive: Derive, t: Tables, c: Call, at: nat): Effect {
    match c
    case CallBootstrap(name, password, salt, id, token) => Bootstrap(derive, t, name, password, salt, id, token, at)
    case CallLogin(name, password, token) => Login(derive, t, name, password, token, at)
    case CallLogout(token) => Logout(t, token)
    case CallCreateUser(token, name, password, salt, role, id, event) => CreateUser(derive, t, token, name, password, salt, role, id, event, at)
    case CallCreateProject(token, name, description, id, event) => CreateProject(t, token, name, description, id, event, at)
    case CallAddMember(token, project, user, event) => AddMember(t, token, project, user, event, at)
    case CallCreateTask(token, payload, id, event) => CreateTask(t, token, payload, id, event, at)
    case CallUpdateTask(token, id, payload, event) => UpdateTask(t, token, id, payload, event, at)
  }

  /** The tables after each call at its time has been made in turn. */
  function Run(derive: Derive, t: Tables, calls: seq<(Call, nat)>): Tables
    decreases |calls|
  {
    if calls == [] then t else Run(derive, Step(derive, t, calls[0].0, calls[0].1).0, calls[1..])
  }

  // ----- Invariants of every run -----

  ghost predicate NamesUnique(users: map<string, User>) {
    forall a, b :: a in users && b in users && users[a].username == users[b].username ==> a == b
  }

  ghost predicate EventsDistinct(audit: seq<Event>) {
    forall i, j :: 0 <= i < j < |audit| ==> audit[i].id != audit[j].id
  }

  ghost predicate Sound(t: Tables) {
    && (t.users != map[] ==> HasAdmin(t.users))
    && NamesUnique(t.users)
    && (forall k :: k in t.sessions ==> t.sessions[k].userId in t.users)
    && Distinct(t.memberships)
    && (forall k :: k in t.tasks ==> ValidStatus(t.tasks[k].status))
    && (forall i :: 0 <= i < |t.audit| ==> t.audit[i].actor in t.users)
    && EventsDistinct(t.audit)
  }

  lemma AddedUserSound(t: Tables, id: string, row: User)
    requires Sound(t) && id !in t.users && !NameTaken(t.users, row.username) && (row.role == Admin || HasAdmin(t.users))
    ensures Sound(t.(users := t.users[id := row]))
  {
    hide ValidStatus;
    var users := t.users[id := row];
    assert HasAdmin(users) by {
      if row.role == Admin {
        assert users[id].role == Admin;
      } else {
        var a :| a in t.users && t.users[a].role == Admin;
        assert users[a].role == Admin;
      }
    }
  }

  lemma LogSound(t: Tables, e: Event, reply: Reply)
    requires Sound(t) && e.actor in t.users
    ensures Sound(Log(t, e, reply).0)
  {
    hide ValidStatus, HasAdmin, NamesUnique;
    assert forall i :: 0 <= i < |t.audit| ==> t.audit[i] in t.audit;
  }

  lemma TaskSound(t: Tables, id: string, row: Task)
    requires Sound(t) && ValidStatus(row.status)
    ensures Sound(t.(tasks := t.tasks[id := row]))
  {
    hide ValidStatus, HasAdmin, NamesUnique;
  }

  lemma MembershipSound(t: Tables, row: (string, string))
    requires Sound(t) && row !in t.memberships
    ensures Sound(t.(memberships := t.memberships + [row]))
  {
    hide ValidStatus, HasAdmin, NamesUnique;
  }

  lemma ProjectSound(t: Tables, id: string, row: Project)
    requires Sound(t)
    ensures Sound(t.(projects := t.projects[id := row]))
  {}

  lemma {:induction false} FirstNamedMeaning(users: map<string, User>, ids: seq<string>, name: string)
    ensures var found := FirstNamed(users, ids, name);
            && (found.Some? ==> found.value in ids && found.value in users && users[found.value].username == name)
            && (found.None? ==> forall id :: id in ids && id in users ==> users[id].username != name)
  {
    if ids != [] {
      FirstNamedMeaning(users, ids[1..], name);
      assert forall id :: id in ids ==> id == ids[0] || id in ids[1..];
    }
  }

  /** With unique names the lookup by name finds the user there is. */
  lemma UserNamedMeaning(users: map<string, User>, name: string)
    requires NamesUnique(users)
    ensures var found := UserNamed(users, name);
            && (found.Some? ==> found.value in users && users[found.value].username == name)
            && (forall id :: id in users && users[id].username == name ==> found == Some(id))
  {
    FirstNamedMeaning(users, Sorted(users.Keys), name);
    forall id | id in users ensures id in Sorted(users.Keys) {
      assert id in Elements(Sorted(users.Keys));
    }
  }

  lemma LoginSound(derive: Derive, t: Tables, name: string, password: string, token: string, at: nat)
    requires Sound(t)
    ensures Sound(Login(derive, t, name, password, token, at).0)
  {
    UserNamedMeaning(t.users, name);
    hide ValidStatus, HasAdmin, UserNamed, NamesUnique, EventsDistinct;
  }

  lemma InsertUserSound(t: Tables, actor: Option<string>, name: string, hash: PasswordHash, role: string, id: string, event: string, at: nat)
    requires Sound(t) && (role == "admin" || HasAdmin(t.users)) && (actor.Some? ==> actor.value in t.users)
    ensures Sound(InsertUser(t, actor, name, hash, role, id, event, at).0)
  {
    hide Sound, Log;
    if KnownRole(role) && id !in t.users && !NameTaken(t.users, name) {
      var row := UserRow(name, hash, role, at);
      AddedUserSound(t, id, row);
      if actor.Some? {
        LogSound(t.(users := t.users[id := row]), Event(event, actor.value, CreatedUser, id, at), UserCreated(id));
      }
    }
  }

  lemma BootstrapSound(derive: Derive, t: Tables, name: string, password: string, salt: string, id: string, token: string, at: nat)
    requires Sound(t)
    ensures Sound(Bootstrap(derive, t, name, password, salt, id, token, at).0)
  {
    hide Sound, Login, InsertUser, HashPassword;
    var hash := HashPassword(derive, password, salt);
    LoginSound(derive, t, name, password, token, at);
    InsertUserSound(t, None, name, hash, "admin", id, "", at);
    LoginSound(derive, InsertUser(t, None, name, hash, "admin", id, "", at).0, name, password, token, at);
  }

  lemma AdminExists(t: Tables, token: string)
    requires RequireAdmin(t, token).Accepted?
    ensures RequireAdmin(t, token).value in t.users && HasAdmin(t.users)
  {}

  lemma CreateUserSound(derive: Derive, t: Tables, token: string, name: string, password: string, salt: string, role: string, id: string,
                        event: string, at: nat)
    requires Sound(t)
    ensures Sound(CreateUser(derive, t, token, name, password, salt, role, id, event, at).0)
  {
    hide Sound, InsertUser;
    var actor := RequireAdmin(t, token);
    if actor.Accepted? {
      AdminExists(t, token);
      InsertUserSound(t, Some(actor.value), name, HashPassword(derive, password, salt), role, id, event, at);
    }
  }

  lemma CreateProjectSound(t: Tables, token: string, name: string, description: string, id: string, event: string, at: nat)
    requires Sound(t)
    ensures Sound(CreateProject(t, token, name, description, id, event, at).0)
  {
    hide Sound, RequireAdmin, Log;
    var actor := RequireAdmin(t, token);
    if actor.Accepted? {
      AdminExists(t, token);
      var row := Project(name, description, at, at);
      var grown := t.(projects := t.projects[id := row]);
      ProjectSound(t, id, row);
      if (id, actor.value) !in t.memberships {
        MembershipSound(grown, (id, actor.value));
        LogSound(grown.(memberships := grown.memberships + [(id, actor.value)]), Event(event, actor.value, CreatedProject, id, at), ProjectRow(id, row));
      }
    }
  }

  lemma AddMemberSound(t: Tables, token: string, project: string, user: string, event: string, at: nat)
    requires Sound(t)
    ensures Sound(AddMember(t, token, project, user, event, at).0)
  {
    hide Sound, RequireAdmin, Log;
    var actor := RequireAdmin(t, token);
    if actor.Accepted? {
      AdminExists(t, token);
      if (project, user) !in t.memberships {
        MembershipSound(t, (project, user));
      }
      LogSound(WithMember(t, (project, user)), Event(event, actor.value, AddedMember, project, at), MemberAdded);
    }
  }

  lemma CreateTaskSound(t: Tables, token: string, p: Payload, id: string, event: string, at: nat)
    requires Sound(t)
    ensures Sound(CreateTask(t, token, p, id, event, at).0)
  {
    hide Sound, Log, NullProject;
    if "project_id" in p && p["project_id"].Some? && RequireUser(t, token).Accepted? {
      var row := NewTask(p, p["project_id"].value, at);
      if row.Accepted? {
        TaskSound(t, id, row.value);
        LogSound(t.(tasks := t.tasks[id := row.value]), Event(event, RequireUser(t, token).value, CreatedTask, id, at), TaskRow(id, row.value));
      }
    }
  }

  lemma UpdateTaskSound(t: Tables, token: string, id: string, p: Payload, event: string, at: nat)
    requires Sound(t)
    ensures Sound(UpdateTask(t, token, id, p, event, at).0)
  {
    if id in t.tasks && RequireUser(t, token).Accepted? {
      var row := Updated(t.tasks[id], p, at);
      if row.Accepted? {
        TaskSound(t, id, row.value);
        LogSound(t.(tasks := t.tasks[id := row.value]), Event(event, RequireUser(t, token).value, UpdatedTask, id, at), TaskRow(id, row.value));
      }
    }
    hide Sound, Log;
  }

  lemma StepSound(derive: Derive, t: Tables, c: Call, at: nat)
    requires Sound(t)
    ensures Sound(Step(derive, t, c, at).0)
  {
    hide Sound, Bootstrap, Login, Logout, CreateUser, CreateProject, AddMember, CreateTask, UpdateTask;
    match c {
      case CallBootstrap(name, password, salt, id, token) => BootstrapSound(derive, t, name, password, salt, id, token, at);
      case CallLogin(name, password, token) => LoginSound(derive, t, name, password, token, at);
      case CallLogout(token) => LogoutSound(t, token);
      case CallCreateUser(token, name, password, salt, role, id, event) =>
        CreateUserSound(derive, t, token, name, password, salt, role, id, event, at);
      case CallCreateProject(token, name, description, id, event) => CreateProjectSound(t, token, name, description, id, event, at);
      case CallAddMember(token, project, user, event) => AddMemberSound(t, token, project, user, event, at);
      case CallCreateTask(token, payload, id, event) => CreateTaskSound(t, token, payload, id, event, at);
      case CallUpdateTask(token, id, payload, event) => UpdateTaskSound(t, token, id, payload, event, at);
    }
  }

  lemma LogoutSound(t: Tables, token: string)
    requires Sound(t)
    ensures Sound(Logout(t, token).0)
  {
    hide ValidStatus, HasAdmin, NamesUnique;
  }

  /** Every run keeps the tables sound, whatever ids the calls draw. */
  lemma {:induction false} RunSound(derive: Derive, t: Tables, calls: seq<(Call, nat)>)
    requires Sound(t)
    ensures Sound(Run(derive, t, calls))
    decreases |calls|
  {
    hide Sound, Step;
    if calls != [] {
      StepSound(derive, t, calls[0].0, calls[0].1);
      RunSound(derive, Step(derive, t, calls[0].0, calls[0].1).0, calls[1..]);
    }
  }

  // ----- Rejected calls -----

  /**
   * How a rejected call can leave a trace: something has been committed when a drawn id turns out to be taken, namely
   * the event id of any audited call, or a project id for which the administrator had been made a member beforehand.
   */
  predicate LeavesTrace(t: Tables, c: Call, at: nat) {
    match c
    case CallCreateUser(token, name, _, _, role, id, event) =>
      RequireAdmin(t, token).Accepted? && KnownRole(role) && id !in t.users && !NameTaken(t.users, name) && EventTaken(t.audit, event)
    case CallCreateProject(token, _, _, id, event) =>
      && RequireAdmin(t, token).Accepted? && id !in t.projects
      && ((id, RequireAdmin(t, token).value) in t.memberships || EventTaken(t.audit, event))
    case CallAddMember(token, project, user, event) =>
      RequireAdmin(t, token).Accepted? && (project, user) !in t.memberships && EventTaken(t.audit, event)
    case CallCreateTask(token, p, id, event) =>
      && RequireUser(t, token).Accepted? && "project_id" in p && p["project_id"].Some?
      && MayAccess(t, RequireUser(t, token).value, p["project_id"].value)
      && NewTask(p, p["project_id"].value, at).Accepted? && id !in t.tasks && EventTaken(t.audit, event)
    case CallUpdateTask(token, id, p, event) =>
      && RequireUser(t, token).Accepted? && id in t.tasks && MayAccess(t, RequireUser(t, token).value, t.tasks[id].projectId)
      && Updates(p) && Updated(t.tasks[id], p, at).Accepted? && Updated(t.tasks[id], p, at).value != t.tasks[id]
      && EventTaken(t.audit, event)
    case _ => false
  }

  ghost predicate RejectedWithTrace(derive: Derive, t: Tables, c: Call, at: nat) {
    Step(derive, t, c, at).1.Rejected? && Step(derive, t, c, at).0 != t
  }

  /** The first administrator's password fits the hash just stored, so the first bootstrap is never rejected. */
  lemma FirstUserLogsIn(derive: Derive, t: Tables, name: string, password: string, salt: string, id: string, token: string, at: nat)
    requires Sound(t) && !HasAdmin(t.users)
    ensures t.users == map[] && t.sessions == map[]
    ensures Bootstrap(derive, t, name, password, salt, id, token, at).1 == Accepted(LoggedIn(token, id))
    ensures Bootstrap(derive, t, name, password, salt, id, token, at).0 ==
            t.(users := map[id := UserRow(name, HashPassword(derive, password, salt), "admin", at)],
               sessions := map[token := Session(id, at)])
  {
    forall k | k in t.sessions ensures t.sessions[k].userId in t.users {}
    var row := UserRow(name, HashPassword(derive, password, salt), "admin", at);
    assert t.users[id := row] == map[id := row];
    assert t.sessions[token := Session(id, at)] == map[token := Session(id, at)];
    UserNamedMeaning(map[id := row], name);
  }

  lemma BootstrapRejectsCleanly(derive: Derive, t: Tables, name: string, password: string, salt: string, id: string, token: string, at: nat)
    requires Sound(t)
    ensures Bootstrap(derive, t, name, password, salt, id, token, at).1.Rejected? ==>
              Bootstrap(derive, t, name, password, salt, id, token, at).0 == t
  {
    if !HasAdmin(t.users) {
      FirstUserLogsIn(derive, t, name, password, salt, id, token, at);
    }
    hide Sound, UserNamed, InsertUser, HasAdmin;
  }

  lemma UserTrace(derive: Derive, t: Tables, c: Call, at: nat)
    requires c.CallCreateUser? || c.CallCreateProject? || c.CallAddMember?
    ensures RejectedWithTrace(derive, t, c, at) <==> LeavesTrace(t, c, at)
  {
    hide RequireAdmin, EventTaken, NameTaken, HashPassword, UserRow, KnownRole;
    if c.CallCreateUser? {
      assert c.id in t.users[c.id := UserRow(c.name, HashPassword(derive, c.password, c.salt), c.role, at)];
    } else if c.CallCreateProject? {
      assert c.id in t.projects[c.id := Project(c.name, c.description, at, at)];
    } else {
      assert |t.memberships + [(c.project, c.user)]| == |t.memberships| + 1;
    }
  }

  lemma TaskTrace(derive: Derive, t: Tables, c: Call, at: nat)
    requires c.CallCreateTask? || c.CallUpdateTask?
    ensures RejectedWithTrace(derive, t, c, at) <==> LeavesTrace(t, c, at)
  {
    hide RequireUser, MayAccess, EventTaken, NewTask, Updated, Updates, NullProject;
    if c.CallCreateTask? {
      forall row: Task {:trigger t.tasks[c.id := row]} ensures c.id in t.tasks[c.id := row] {}
    } else if c.id in t.tasks && Updated(t.tasks[c.id], c.payload, at).Accepted? {
      var row := Updated(t.tasks[c.id], c.payload, at).value;
      assert t.tasks[c.id := row][c.id] == row;
      assert row == t.tasks[c.id] ==> t.tasks[c.id := row] == t.tasks;
    }
  }

  /** A call is rejected and yet changes a table exactly in those cases. */
  lemma RejectedChangesNothing(derive: Derive, t: Tables, c: Call, at: nat)
    requires Sound(t)
    ensures RejectedWithTrace(derive, t, c, at) <==> LeavesTrace(t, c, at)
  {
    hide Sound;
    match c {
      case CallBootstrap(name, password, salt, id, token) => BootstrapRejectsCleanly(derive, t, name, password, salt, id, token, at);
      case CallLogin(_, _, _) => hide UserNamed, CheckPassword;
      case CallLogout(_) =>
      case CallCreateTask(_, _, _, _) => TaskTrace(derive, t, c, at);
      case CallUpdateTask(_, _, _, _) => TaskTrace(derive, t, c, at);
      case _ => UserTrace(derive, t, c, at);
    }
  }

  /** The ids the call draws, as far as a collision would show after a commit, are not in use. */
  predicate DrawsFreshIds(t: Tables, c: Call) {
    && ((c.CallCreateUser? || c.CallCreateProject? || c.CallAddMember? || c.CallCreateTask? || c.CallUpdateTask?) ==> !EventTaken(t.audit, c.event))
    && (c.CallCreateProject? ==> forall i | 0 <= i < |t.memberships| :: t.memberships[i].0 != c.id)
  }

  /** With fresh ids a rejected call changes nothing. */
  lemma FreshIdsRejectCleanly(derive: Derive, t: Tables, c: Call, at: nat)
    requires Sound(t) && DrawsFreshIds(t, c)
    ensures Step(derive, t, c, at).1.Rejected? ==> Step(derive, t, c, at).0 == t
  {
    hide Sound, Step, RequireAdmin, RequireUser, MayAccess, NewTask, Updated, Updates, KnownRole, NameTaken;
    RejectedChangesNothing(derive, t, c, at);
  }

  // Both cases can be reached from an empty database.

  lemma RunOfTwo(derive: Derive, t: Tables, first: (Call, nat), second: (Call, nat))
    ensures Run(derive, t, [first, second]) == Step(derive, Step(derive, t, first.0, first.1).0, second.0, second.1).0
  {
    hide Step;
    var calls: seq<(Call, nat)> := [first, second];
    var rest: seq<(Call, nat)> := [second];
    assert calls[1..] == rest && rest[1..] == [];
    assert Run(derive, t, calls) == Run(derive, Step(derive, t, first.0, first.1).0, [second]);
  }

  /** After the first administrator has added a member: who can act, and which event id is taken. */
  lemma AfterAddingMember(derive: Derive, name: string, password: string, salt: string, admin: string, token: string, project: string,
                          user: string, event: string) returns (t: Tables)
    ensures t == Run(derive, EMPTY, [(CallBootstrap(name, password, salt, admin, token), 0), (CallAddMember(token, project, user, event), 1)])
    ensures RequireAdmin(t, token) == Accepted(admin)
    ensures t.users == map[admin := UserRow(name, HashPassword(derive, password, salt), "admin", 0)]
    ensures t.projects == map[] && t.memberships == [(project, user)] && EventTaken(t.audit, event)
  {
    var boot, add := CallBootstrap(name, password, salt, admin, token), CallAddMember(token, project, user, event);
    FirstUserLogsIn(derive, EMPTY, name, password, salt, admin, token, 0);
    RunOfTwo(derive, EMPTY, (boot, 0), (add, 1));
    hide Bootstrap, HashPassword;
    var start := Step(derive, EMPTY, boot, 0).0;
    t := Step(derive, start, add, 1).0;
    assert t.audit[0].id == event;
  }

  /** A project is rejected, and stays, when its administrator was added to its id beforehand. */
  lemma ProjectLeftBehind(derive: Derive, name: string, password: string, salt: string, admin: string, token: string,
                          project: string, event: string, next: string)
    ensures var t := Run(derive, EMPTY, [(CallBootstrap(name, password, salt, admin, token), 0), (CallAddMember(token, project, admin, event), 1)]);
            var (after, result) := Step(derive, t, CallCreateProject(token, name, "", project, next), 2);
            result == Rejected(IntegrityError) && project !in t.projects && project in after.projects
  {
    var t := AfterAddingMember(derive, name, password, salt, admin, token, project, admin, event);
    hide Run, RequireAdmin, EventTaken;
  }

  /** A user is rejected, and stays, when the id drawn for its event is taken. */
  lemma UserLeftBehind(derive: Derive, name: string, password: string, salt: string, admin: string, token: string,
                       project: string, event: string, other: string, id: string)
    requires other != name && id != admin
    ensures var t := Run(derive, EMPTY, [(CallBootstrap(name, password, salt, admin, token), 0), (CallAddMember(token, project, admin, event), 1)]);
            var (after, result) := Step(derive, t, CallCreateUser(token, other, password, salt, "member", id, event), 2);
            result == Rejected(IntegrityError) && id !in t.users && id in after.users
  {
    var t := AfterAddingMember(derive, name, password, salt, admin, token, project, admin, event);
    hide Run, RequireAdmin, EventTaken;
    assert !NameTaken(t.users, other);
  }

  // ----- The audit trail -----

  /** Does the call, when accepted, leave an event? */
  predicate Audits(c: Call) {
    match c
    case CallBootstrap(_, _, _, _, _) => false
    case CallLogin(_, _, _) => false
    case CallLogout(_) => false
    case CallUpdateTask(_, _, payload, _) => Updates(payload)
    case _ => true
  }

  function EventOf(t: Tables, c: Call, at: nat): Event {
    match c
    case CallCreateUser(token, _, _, _, _, id, event) => Event(event, Actor(t, token), CreatedUser, id, at)
    case CallCreateProject(token, _, _, id, event) => Event(event, Actor(t, token), CreatedProject, id, at)
    case CallAddMember(token, project, _, event) => Event(event, Actor(t, token), AddedMember, project, at)
    case CallCreateTask(token, _, id, event) => Event(event, Actor(t, token), CreatedTask, id, at)
    case CallUpdateTask(token, id, _, event) => Event(event, Actor(t, token), UpdatedTask, id, at)
    case _ => Event("", "", CreatedUser, "", at)
  }

  function Actor(t: Tables, token: string): string {
    if token in t.sessions then t.sessions[token].userId else ""
  }

  /** Each accepted auditable call appends exactly its event; nothing else touches the trail. */
  lemma AuditGrows(derive: Derive, t: Tables, c: Call, at: nat)
    ensures var (after, result) := Step(derive, t, c, at);
            after.audit == t.audit + if result.Accepted? && Audits(c) then [EventOf(t, c, at)] else []
  {
    hide UserNamed, Updated, NewTask, NullProject, EventTaken, NameTaken, HashPassword, CheckPassword, UserRow, KnownRole;
    assert t.audit + [] == t.audit;
  }

  function AuditedCalls(derive: Derive, t: Tables, calls: seq<(Call, nat)>): nat
    decreases |calls|
  {
    if calls == [] then 0
    else
      var (after, result) := Step(derive, t, calls[0].0, calls[0].1);
      (if result.Accepted? && Audits(calls[0].0) then 1 else 0) + AuditedCalls(derive, after, calls[1..])
  }

  /** Over a run the trail is only extended, once for every accepted auditable call. */
  lemma {:induction false} RunAudit(derive: Derive, t: Tables, calls: seq<(Call, nat)>)
    ensures t.audit <= Run(derive, t, calls).audit
    ensures |Run(derive, t, calls).audit| == |t.audit| + AuditedCalls(derive, t, calls)
    decreases |calls|
  {
    hide Step, EventOf;
    if calls != [] {
      AuditGrows(derive, t, calls[0].0, calls[0].1);
      RunAudit(derive, Step(derive, t, calls[0].0, calls[0].1).0, calls[1..]);
    }
  }

  // ----- What stays -----

  ghost predicate KeepsRows(before: Tables, after: Tables) {
    && (forall id :: id in before.users ==> id in after.users && after.users[id] == before.users[id])
    && (forall id :: id in before.projects ==> id in after.projects && after.projects[id] == before.projects[id])
    && before.memberships <= after.memberships
    && (forall id :: id in before.tasks ==>
          id in after.tasks && after.tasks[id].projectId == before.tasks[id].projectId && after.tasks[id].createdAt == before.tasks[id].createdAt)
  }

  lemma KeepsRowsReflexive(t: Tables)
    ensures KeepsRows(t, t)
  {}

  lemma KeepsRowsTransitive(a: Tables, b: Tables, c: Tables)
    requires KeepsRows(a, b) && KeepsRows(b, c)
    ensures KeepsRows(a, c)
  {}

  lemma LogKeepsRows(before: Tables, t: Tables, e: Event, reply: Reply)
    requires KeepsRows(before, t)
    ensures KeepsRows(before, Log(t, e, reply).0)
  {
    hide EventTaken;
  }

  lemma InsertUserKeepsRows(t: Tables, actor: Option<string>, name: string, hash: PasswordHash, role: string, id: string, event: string, at: nat)
    ensures KeepsRows(t, InsertUser(t, actor, name, hash, role, id, event, at).0)
  {
    hide NameTaken, EventTaken, UserRow, KnownRole;
  }

  lemma LoginKeepsRows(derive: Derive, t: Tables, name: string, password: string, token: string, at: nat)
    ensures KeepsRows(t, Login(derive, t, name, password, token, at).0)
  {
    hide UserNamed;
  }

  lemma BootstrapKeepsRows(derive: Derive, t: Tables, name: string, password: string, salt: string, id: string, token: string, at: nat)
    ensures KeepsRows(t, Bootstrap(derive, t, name, password, salt, id, token, at).0)
  {
    hide Login, InsertUser, KeepsRows, HashPassword;
    var hash := HashPassword(derive, password, salt);
    var created := InsertUser(t, None, name, hash, "admin", id, "", at).0;
    InsertUserKeepsRows(t, None, name, hash, "admin", id, "", at);
    LoginKeepsRows(derive, t, name, password, token, at);
    LoginKeepsRows(derive, created, name, password, token, at);
    KeepsRowsTransitive(t, created, Login(derive, created, name, password, token, at).0);
  }

  lemma CreateUserKeepsRows(derive: Derive, t: Tables, token: string, name: string, password: string, salt: string, role: string, id: string,
                            event: string, at: nat)
    ensures KeepsRows(t, CreateUser(derive, t, token, name, password, salt, role, id, event, at).0)
  {
    hide InsertUser, KeepsRows, RequireAdmin;
    KeepsRowsReflexive(t);
    if RequireAdmin(t, token).Accepted? {
      InsertUserKeepsRows(t, Some(RequireAdmin(t, token).value), name, HashPassword(derive, password, salt), role, id, event, at);
    }
  }

  lemma CreateProjectKeepsRows(t: Tables, token: string, name: string, description: string, id: string, event: string, at: nat)
    ensures KeepsRows(t, CreateProject(t, token, name, description, id, event, at).0)
  {
    hide RequireAdmin, EventTaken;
  }

  lemma AddMemberKeepsRows(t: Tables, token: string, project: string, user: string, event: string, at: nat)
    ensures KeepsRows(t, AddMember(t, token, project, user, event, at).0)
  {
    hide RequireAdmin, EventTaken;
  }

  lemma UpdatedKeepsProject(task: Task, p: Payload, at: nat)
    requires Updated(task, p, at).Accepted?
    ensures Updated(task, p, at).value.projectId == task.projectId && Updated(task, p, at).value.createdAt == task.createdAt
  {
    hide GetOr, ValidStatus;
  }

  lemma TaskRowKeepsRows(t: Tables, id: string, row: Task)
    requires id in t.tasks ==> row.projectId == t.tasks[id].projectId && row.createdAt == t.tasks[id].createdAt
    ensures KeepsRows(t, t.(tasks := t.tasks[id := row]))
  {}

  lemma UpdateTaskKeepsRows(t: Tables, token: string, id: string, p: Payload, event: string, at: nat)
    ensures KeepsRows(t, UpdateTask(t, token, id, p, event, at).0)
  {
    hide KeepsRows, Log, MayAccess, RequireUser, Updates, Updated;
    KeepsRowsReflexive(t);
    if id in t.tasks && Updated(t.tasks[id], p, at).Accepted? && RequireUser(t, token).Accepted? {
      var row := Updated(t.tasks[id], p, at).value;
      UpdatedKeepsProject(t.tasks[id], p, at);
      TaskRowKeepsRows(t, id, row);
      LogKeepsRows(t, t.(tasks := t.tasks[id := row]), Event(event, RequireUser(t, token).value, UpdatedTask, id, at), TaskRow(id, row));
    }
  }

  lemma CreateTaskKeepsRows(t: Tables, token: string, p: Payload, id: string, event: string, at: nat)
    ensures KeepsRows(t, CreateTask(t, token, p, id, event, at).0)
  {
    hide KeepsRows, Log, MayAccess, RequireUser, NewTask, NullProject;
    KeepsRowsReflexive(t);
    if "project_id" in p && p["project_id"].Some? && id !in t.tasks && RequireUser(t, token).Accepted? {
      var row := NewTask(p, p["project_id"].value, at);
      if row.Accepted? {
        TaskRowKeepsRows(t, id, row.value);
        LogKeepsRows(t, t.(tasks := t.tasks[id := row.value]), Event(event, RequireUser(t, token).value, CreatedTask, id, at), TaskRow(id, row.value));
      }
    }
  }

  lemma StepKeepsRows(derive: Derive, t: Tables, c: Call, at: nat)
    ensures KeepsRows(t, Step(derive, t, c, at).0)
  {
    hide Login, Bootstrap, CreateUser, CreateProject, AddMember, CreateTask, UpdateTask;
    match c {
      case CallBootstrap(name, password, salt, id, token) => BootstrapKeepsRows(derive, t, name, password, salt, id, token, at);
      case CallLogin(name, password, token) => LoginKeepsRows(derive, t, name, password, token, at);
      case CallLogout(token) =>
      case CallCreateUser(token, name, password, salt, role, id, event) =>
        CreateUserKeepsRows(derive, t, token, name, password, salt, role, id, event, at);
      case CallCreateProject(token, name, description, id, event) => CreateProjectKeepsRows(t, token, name, description, id, event, at);
      case CallAddMember(token, project, user, event) => AddMemberKeepsRows(t, token, project, user, event, at);
      case CallCreateTask(token, payload, id, event) => CreateTaskKeepsRows(t, token, payload, id, event, at);
      case CallUpdateTask(token, id, payload, event) => UpdateTaskKeepsRows(t, token, id, payload, event, at);
    }
  }

  /** Users, projects and memberships are never changed or removed, and a task never changes its project, over any run. */
  lemma {:induction false} RunKeepsRows(derive: Derive, t: Tables, calls: seq<(Call, nat)>)
    ensures KeepsRows(t, Run(derive, t, calls))
    decreases |calls|
  {
    hide Step, KeepsRows;
    if calls == [] {
      KeepsRowsReflexive(t);
    } else {
      var next := Step(derive, t, calls[0].0, calls[0].1).0;
      StepKeepsRows(derive, t, calls[0].0, calls[0].1);
      RunKeepsRows(derive, next, calls[1..]);
      KeepsRowsTransitive(t, next, Run(derive, next, calls[1..]));
    }
  }

  // ----- Who may change what -----

  /** The task that a call is about, for someone allowed to touch it. */
  ghost predicate TouchesTask(t: Tables, after: Tables, c: Call, id: string) {
    && (c.CallCreateTask? || c.CallUpdateTask?) && c.id == id && id in after.tasks
    && RequireUser(t, c.token).Accepted? && MayAccess(t, RequireUser(t, c.token).value, after.tasks[id].projectId)
  }

  /** A task row appears or changes only through a call about it by an administrator or a member of its project. */
  lemma OnlyMembersTouchTasks(derive: Derive, t: Tables, c: Call, at: nat, id: string)
    ensures var after := Step(derive, t, c, at).0;
            || ((id in t.tasks <==> id in after.tasks) && (id in t.tasks ==> after.tasks[id] == t.tasks[id]))
            || TouchesTask(t, after, c, id)
  {
    hide UserNamed, NullProject, EventTaken, NameTaken, HashPassword, CheckPassword, UserRow, KnownRole;
  }

  /** A user appears only at the first bootstrap or through an administrator, a project or a membership only through one. */
  lemma OnlyAdminsGrow(derive: Derive, t: Tables, c: Call, at: nat)
    ensures var after := Step(derive, t, c, at).0;
            && (after.users != t.users ==>
                  (c.CallBootstrap? && !HasAdmin(t.users)) || (c.CallCreateUser? && RequireAdmin(t, c.token).Accepted?))
            && (after.projects != t.projects ==> c.CallCreateProject? && RequireAdmin(t, c.token).Accepted?)
            && (after.memberships != t.memberships ==>
                  (c.CallCreateProject? || c.CallAddMember?) && RequireAdmin(t, c.token).Accepted?)
  {
    hide UserNamed, NewTask, NullProject, Updated, Updates, EventTaken, NameTaken, HashPassword, CheckPassword, UserRow, KnownRole;
    hide RequireUser, RequireAdmin, MayAccess, HasAdmin;
  }

  // ----- Columns -----

  /** The column a key of a request body sets; None is NULL. */
  function Column(task: Task, key: string): Option<string> {
    if key == "title" then Some(task.title)
    else if key == "description" then Some(task.description)
    else if key == "assignee_id" then task.assignee
    else if key == "status" then Some(task.status)
    else if key == "priority" then Some(task.priority)
    else if key == "due_date" then task.dueDate
    else None
  }

  predicate Updatable(key: string) {
    key == "title" || key == "description" || key == "assignee_id" || key == "status" || key == "priority" || key == "due_date"
  }

  function DefaultColumn(key: string): Option<string> {
    if key == "description" then Some("") else if key == "status" then Some("todo") else if key == "priority" then Some("medium") else None
  }

  /** An accepted update sets exactly the columns its body names, stamps the row, and leaves the rest. */
  lemma UpdatedColumns(task: Task, p: Payload, at: nat, key: string)
    requires Updated(task, p, at).Accepted? && Updatable(key)
    ensures Column(Updated(task, p, at).value, key) == if key in p then p[key] else Column(task, key)
    ensures var row := Updated(task, p, at).value;
            && row.projectId == task.projectId && row.createdAt == task.createdAt && row.updatedAt == at
            && (ValidStatus(task.status) ==> ValidStatus(row.status))
  {}

  /** A new task has the columns of its body, defaults elsewhere, and needs a title. */
  lemma NewTaskColumns(p: Payload, project: string, at: nat, key: string)
    requires NewTask(p, project, at).Accepted? && Updatable(key)
    ensures "title" in p && Column(NewTask(p, project, at).value, key) == if key in p then p[key] else DefaultColumn(key)
  {}

  /** The column of a task; None when there is no such task. */
  function ColumnOf(t: Tables, id: string, key: string): Option<Option<string>> {
    if id in t.tasks then Some(Column(t.tasks[id], key)) else None
  }

  /** A call takes hold when it is accepted, and when it is rejected for the id of its event alone. */
  predicate TakesHold(derive: Derive, t: Tables, c: Call, at: nat) {
    Step(derive, t, c, at).1.Accepted? || LeavesTrace(t, c, at)
  }

  /** What a call makes of a column: its body decides when it names the column, on creation with defaults. */
  function Written(derive: Derive, t: Tables, c: Call, at: nat, id: string, key: string, current: Option<Option<string>>): Option<Option<string>> {
    match c
    case CallCreateTask(_, p, created, _) =>
      if created == id && TakesHold(derive, t, c, at) then Some(if key in p then p[key] else DefaultColumn(key)) else current
    case CallUpdateTask(_, updated, p, _) =>
      if updated == id && key in p && TakesHold(derive, t, c, at) then Some(p[key]) else current
    case _ => current
  }

  /** The last value that a call of the run wrote, or else the current one. */
  function LastWritten(derive: Derive, t: Tables, calls: seq<(Call, nat)>, id: string, key: string, current: Option<Option<string>>): Option<Option<string>>
    decreases |calls|
  {
    if calls == [] then current
    else
      var (c, at) := calls[0];
      LastWritten(derive, Step(derive, t, c, at).0, calls[1..], id, key, Written(derive, t, c, at, id, key, current))
  }

  lemma CreateWrites(derive: Derive, t: Tables, c: Call, at: nat, id: string, key: string)
    requires c.CallCreateTask? && Updatable(key)
    ensures ColumnOf(Step(derive, t, c, at).0, id, key) == Written(derive, t, c, at, id, key, ColumnOf(t, id, key))
  {
    hide Column, DefaultColumn, Updatable, NewTask, RequireUser, MayAccess, EventTaken, NullProject;
    var p := c.payload;
    if "project_id" in p && p["project_id"].Some? && NewTask(p, p["project_id"].value, at).Accepted? {
      NewTaskColumns(p, p["project_id"].value, at, key);
    }
  }

  lemma UpdateWrites(derive: Derive, t: Tables, c: Call, at: nat, id: string, key: string)
    requires c.CallUpdateTask? && Updatable(key)
    ensures ColumnOf(Step(derive, t, c, at).0, id, key) == Written(derive, t, c, at, id, key, ColumnOf(t, id, key))
  {
    NamedUpdates(c.payload, key);
    hide Column, Updatable, Updated, Updates, RequireUser, MayAccess, EventTaken;
    if c.id in t.tasks && Updated(t.tasks[c.id], c.payload, at).Accepted? {
      UpdatedColumns(t.tasks[c.id], c.payload, at, key);
    }
  }

  lemma NamedUpdates(p: Payload, key: string)
    ensures Updatable(key) && key in p ==> Updates(p)
  {}

  lemma OthersWriteNothing(derive: Derive, t: Tables, c: Call, at: nat)
    requires !c.CallCreateTask? && !c.CallUpdateTask?
    ensures Step(derive, t, c, at).0.tasks == t.tasks
  {
    hide UserNamed, EventTaken, NameTaken, HashPassword, CheckPassword, UserRow, KnownRole, RequireUser, RequireAdmin, HasAdmin;
  }

  lemma StepWrites(derive: Derive, t: Tables, c: Call, at: nat, id: string, key: string)
    requires Updatable(key)
    ensures ColumnOf(Step(derive, t, c, at).0, id, key) == Written(derive, t, c, at, id, key, ColumnOf(t, id, key))
  {
    hide Step, Column, Updatable, TakesHold;
    if c.CallCreateTask? {
      CreateWrites(derive, t, c, at, id, key);
    } else if c.CallUpdateTask? {
      UpdateWrites(derive, t, c, at, id, key);
    } else {
      OthersWriteNothing(derive, t, c, at);
    }
  }

  /** After any run, a column holds what was last written to it by a call that took hold. */
  lemma {:induction false} LastWriteStands(derive: Derive, t: Tables, calls: seq<(Call, nat)>, id: string, key: string)
    requires Updatable(key)
    ensures ColumnOf(Run(derive, t, calls), id, key) == LastWritten(derive, t, calls, id, key, ColumnOf(t, id, key))
    decreases |calls|
  {
    hide Step, Updatable, ColumnOf, Written;
    if calls != [] {
      var (c, at) := calls[0];
      StepWrites(derive, t, c, at, id, key);
      LastWriteStands(derive, Step(derive, t, c, at).0, calls[1..], id, key);
    }
  }

  /** After logging out a token opens nothing, and every other token what it opened before. */
  lemma LoggedOutIsOut(t: Tables, token: string)
    ensures RequireUser(Logout(t, token).0, token) == Rejected(PermissionError)
    ensures forall other :: other != token ==> RequireUser(Logout(t, token).0, other) == RequireUser(t, other)
  {}

  // ----- Queries -----

  /** An absent or empty status asks for all tasks. */
  predicate Wants(status: Option<string>, task: Task) {
    status.None? || status.value == "" || task.status == status.value
  }

  /** The tasks a query by this user should list: those of their projects, or all for an administrator. */
  function VisibleTasks(t: Tables, user: string, status: Option<string>): set<string> {
    set id | id in t.tasks && MayAccess(t, user, t.tasks[id].projectId) && Wants(status, t.tasks[id])
  }

  function VisibleProjects(t: Tables, user: string): set<string> {
    set id | id in t.projects && MayAccess(t, user, id)
  }

  /** Every task has exactly one of the three statuses, so the three counts add up. */
  lemma StatusesAddUp(t: Tables, user: string)
    requires Sound(t)
    ensures |VisibleTasks(t, user, None)| ==
            |VisibleTasks(t, user, Some("todo"))| + |VisibleTasks(t, user, Some("in_progress"))| + |VisibleTasks(t, user, Some("done"))|
  {
    var all, todo := VisibleTasks(t, user, None), VisibleTasks(t, user, Some("todo"));
    var progress, done := VisibleTasks(t, user, Some("in_progress")), VisibleTasks(t, user, Some("done"));
    hide MayAccess;
    StatusesDiffer();
    assert all == todo + progress + done by {
      forall id | id in all ensures id in todo + progress + done {
        assert ValidStatus(t.tasks[id].status);
      }
    }
    assert todo !! progress && (todo + progress) !! done;
    assert |todo + progress| == |todo| + |progress|;
    assert |todo + progress + done| == |todo + progress| + |done|;
  }

  lemma StatusesDiffer()
    ensures "todo" != "in_progress" && "todo" != "done" && "in_progress" != "done"
    ensures "todo" != "" && "in_progress" != "" && "done" != ""
  {
    assert "todo"[0] == 't' && "in_progress"[0] == 'i' && "done"[0] == 'd';
  }

  /** The rows with these keys, each once. */
  ghost predicate Lists<V(!new)>(rows: seq<(string, V)>, m: map<string, V>, keys: set<string>) {
    && keys <= m.Keys && |rows| == |keys| && Distinct(rows)
    && (forall r :: r in rows <==> r.0 in keys && r.1 == m[r.0])
  }

  lemma ListsMore<V(!new)>(rows: seq<(string, V)>, m: map<string, V>, keys: set<string>, key: string)
    requires Lists(rows, m, keys) && key in m && key !in keys
    ensures Lists(rows + [(key, m[key])], m, keys + {key})
  {
    var row, more := (key, m[key]), rows + [(key, m[key])];
    assert row !in rows;
    forall r ensures r in more <==> r.0 in keys + {key} && r.1 == m[r.0] {
      assert r in more <==> r in rows || r == row;
    }
  }

  lemma ListsSorted<V(!new)>(le: ((string, V), (string, V)) -> bool, rows: seq<(string, V)>, m: map<string, V>, keys: set<string>)
    requires Lists(rows, m, keys)
    ensures Lists(Sort(le, rows), m, keys)
  {
    SortPermutes(le, rows);
    SortKeepsElements(le, rows);
    DistinctIffSizes(rows);
    DistinctIffSizes(Sort(le, rows));
    assert Elements(rows) == Elements(Sort(le, rows));
  }

  predicate NewestFirst(a: (string, Task), b: (string, Task)) {
    a.1.updatedAt >= b.1.updatedAt
  }

  predicate ByName(a: (string, Project), b: (string, Project)) {
    StrLe(a.1.name, b.1.name)
  }

  lemma OrdersOfRows()
    ensures TotalPreorder(NewestFirst) && TotalPreorder(ByName)
  {
    StrOrder();
  }
}
