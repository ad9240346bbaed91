/** What each tracker call does, stated on the tables alone: who may make it, when it is refused and how, and what it leaves. */
module TrackerRules {
  import opened Order
  import opened TrackerTables
  import opened Wrappers

  predicate SignedIn(t: Tables, token: string) {
    token in t.sessions && t.sessions[token].userId in t.users
  }

  predicate AdminSignedIn(t: Tables, token: string) {
    SignedIn(t, token) && t.users[t.sessions[token].userId].role == Admin
  }

  /** Signed in as an administrator, or as a member of the project. */
  predicate Reaches(t: Tables, token: string, project: string) {
    AdminSignedIn(t, token) || (SignedIn(t, token) && (project, t.sessions[token].userId) in t.memberships)
  }

  // ----- Logging in -----

  /** The user of this name whose stored digest the password derives to, under the stored salt. */
  predicate Fits(derive: Derive, t: Tables, name: string, password: string, id: string) {
    && id in t.users && t.users[id].username == name
    && derive(password, t.users[id].passwordHash.salt) == t.users[id].passwordHash.digest
  }

  ghost predicate NobodyFits(derive: Derive, t: Tables, name: string, password: string) {
    forall id :: id in t.users ==> !Fits(derive, t, name, password, id)
  }

  /** How a login ends: as the fitting user under a free token, and otherwise without any change. */
  ghost predicate LoginOutcome(derive: Derive, t: Tables, name: string, password: string, token: string, at: nat, e: Effect) {
    && (NobodyFits(derive, t, name, password) ==> e == (t, Rejected(PermissionError)))
    && (forall id :: Fits(derive, t, name, password, id) ==>
          e == if token in t.sessions then (t, Rejected(IntegrityError))
               else (t.(sessions := t.sessions[token := Session(id, at)]), Accepted(LoggedIn(token, id))))
  }

  lemma LoginRule(derive: Derive, t: Tables, name: string, password: string, token: string, at: nat)
    requires Sound(t)
    ensures LoginOutcome(derive, t, name, password, token, at, Step(derive, t, CallLogin(name, password, token), at))
  {
    forall id: string ensures Fits(derive, t, name, password, id) <==> Found(derive, t, name, password, id) {
      FitsIsFound(derive, t, name, password, id);
    }
    NamedKnown(t, name);
    hide UserNamed, Sound, Fits, CheckPassword;
  }

  predicate Found(derive: Derive, t: Tables, name: string, password: string, id: string) {
    UserNamed(t.users, name) == Some(id) && id in t.users && CheckPassword(derive, password, t.users[id].passwordHash)
  }

  lemma NamedKnown(t: Tables, name: string)
    requires Sound(t)
    ensures UserNamed(t.users, name).Some? ==> UserNamed(t.users, name).value in t.users
  {
    UserNamedMeaning(t.users, name);
    hide UserNamed, HasAdmin, EventsDistinct;
  }

  lemma FitsIsFound(derive: Derive, t: Tables, name: string, password: string, id: string)
    requires Sound(t)
    ensures Fits(derive, t, name, password, id) <==> Found(derive, t, name, password, id)
  {
    UserNamedMeaning(t.users, name);
    hide UserNamed, HasAdmin, EventsDistinct, NamesUnique;
  }

  /** With an administrator there, bootstrapping is logging in. */
  lemma BootstrapRule(derive: Derive, t: Tables, name: string, password: string, salt: string, id: string, token: string, at: nat)
    requires Sound(t) && exists a :: a in t.users && t.users[a].role == Admin
    ensures LoginOutcome(derive, t, name, password, token, at, Step(derive, t, CallBootstrap(name, password, salt, id, token), at))
  {
    LoginRule(derive, t, name, password, token, at);
    hide LoginOutcome, Login, Sound;
  }

  /** And without one it makes the first, who is logged in: there were neither users nor sessions. */
  lemma FirstBootstrapRule(derive: Derive, t: Tables, name: string, password: string, salt: string, id: string, token: string, at: nat)
    requires Sound(t) && forall a :: a in t.users ==> t.users[a].role != Admin
    ensures Step(derive, t, CallBootstrap(name, password, salt, id, token), at) ==
            (t.(users := map[id := User(name, Admin, PasswordHash(salt, derive(password, salt)), at)],
                sessions := map[token := Session(id, at)]),
             Accepted(LoggedIn(token, id)))
  {
    FirstUserLogsIn(derive, t, name, password, salt, id, token, at);
    hide Bootstrap, Sound;
  }

  lemma LogoutRule(derive: Derive, t: Tables, token: string, at: nat)
    ensures Step(derive, t, CallLogout(token), at) == (t.(sessions := map k | k in t.sessions && k != token :: t.sessions[k]), Accepted(LoggedOut))
  {
    assert t.sessions - {token} == map k | k in t.sessions && k != token :: t.sessions[k];
  }

  // ----- Users, projects, memberships -----

  ghost predicate EventIdFree(t: Tables, event: string) {
    forall e :: e in t.audit ==> e.id != event
  }

  ghost predicate NameFree(t: Tables, name: string) {
    forall u :: u in t.users ==> t.users[u].username != name
  }

  /** What an administrator, or someone else signed in, leaves in the trail. */
  function Entry(t: Tables, token: string, event: string, action: Action, entity: string, at: nat): Event
    requires token in t.sessions
  {
    Event(event, t.sessions[token].userId, action, entity, at)
  }

  /** The last statement: the changed tables get the event, or keep what was committed before its id turned out to be taken. */
  ghost predicate Audited(t: Tables, changed: Tables, e: Event, reply: Reply, outcome: Effect) {
    outcome == if EventIdFree(t, e.id) then (changed.(audit := t.audit + [e]), Accepted(reply)) else (changed, Rejected(IntegrityError))
  }

  lemma LogAudits(t: Tables, changed: Tables, e: Event, reply: Reply)
    requires changed.audit == t.audit
    ensures Audited(t, changed, e, reply, Log(changed, e, reply))
  {}

  ghost predicate CreateUserOutcome(derive: Derive, t: Tables, token: string, name: string, password: string, salt: string, role: string,
                                    id: string, event: string, at: nat, e: Effect) {
    if !AdminSignedIn(t, token) then e == (t, Rejected(PermissionError))
    else if role != "admin" && role != "member" then e == (t, Rejected(ValueError))
    else if id in t.users || !NameFree(t, name) then e == (t, Rejected(IntegrityError))
    else
      var row := User(name, if role == "admin" then Admin else Member, PasswordHash(salt, derive(password, salt)), at);
      Audited(t, t.(users := t.users[id := row]), Entry(t, token, event, CreatedUser, id, at), UserCreated(id), e)
  }

  lemma CreateUserRule(derive: Derive, t: Tables, token: string, name: string, password: string, salt: string, role: string, id: string,
                       event: string, at: nat)
    ensures CreateUserOutcome(derive, t, token, name, password, salt, role, id, event, at,
                              Step(derive, t, CallCreateUser(token, name, password, salt, role, id, event), at))
  {
    hide Audited, Log;
    if AdminSignedIn(t, token) {
      var row := User(name, if role == "admin" then Admin else Member, PasswordHash(salt, derive(password, salt)), at);
      LogAudits(t, t.(users := t.users[id := row]), Entry(t, token, event, CreatedUser, id, at), UserCreated(id));
    }
  }

  ghost predicate CreateProjectOutcome(t: Tables, token: string, name: string, description: string, id: string, event: string, at: nat, e: Effect) {
    if !AdminSignedIn(t, token) then e == (t, Rejected(PermissionError))
    else if id in t.projects then e == (t, Rejected(IntegrityError))
    else
      var row, owner := Project(name, description, at, at), t.sessions[token].userId;
      var grown := t.(projects := t.projects[id := row]);
      if (id, owner) in t.memberships then e == (grown, Rejected(IntegrityError))
      else
        Audited(t, grown.(memberships := t.memberships + [(id, owner)]), Entry(t, token, event, CreatedProject, id, at), ProjectRow(id, row), e)
  }

  lemma CreateProjectRule(derive: Derive, t: Tables, token: string, name: string, description: string, id: string, event: string, at: nat)
    ensures CreateProjectOutcome(t, token, name, description, id, event, at,
                                 Step(derive, t, CallCreateProject(token, name, description, id, event), at))
  {
    hide Audited, Log;
    if AdminSignedIn(t, token) {
      var row, owner := Project(name, description, at, at), t.sessions[token].userId;
      var grown := t.(projects := t.projects[id := row]);
      LogAudits(t, grown.(memberships := t.memberships + [(id, owner)]), Entry(t, token, event, CreatedProject, id, at), ProjectRow(id, row));
    }
  }

  ghost predicate AddMemberOutcome(t: Tables, token: string, project: string, user: string, event: string, at: nat, e: Effect) {
    if !AdminSignedIn(t, token) then e == (t, Rejected(PermissionError))
    else
      var rows := if (project, user) in t.memberships then t.memberships else t.memberships + [(project, user)];
      Audited(t, t.(memberships := rows), Entry(t, token, event, AddedMember, project, at), MemberAdded, e)
  }

  lemma AddMemberRule(derive: Derive, t: Tables, token: string, project: string, user: string, event: string, at: nat)
    ensures AddMemberOutcome(t, token, project, user, event, at, Step(derive, t, CallAddMember(token, project, user, event), at))
  {
    hide Audited, Log;
    if AdminSignedIn(t, token) {
      var rows := if (project, user) in t.memberships then t.memberships else t.memberships + [(project, user)];
      LogAudits(t, t.(memberships := rows), Entry(t, token, event, AddedMember, project, at), MemberAdded);
    }
  }

  // ----- Tasks -----

  predicate IsStatus(s: Option<string>) {
    s.Some? && (s.value == "todo" || s.value == "in_progress" || s.value == "done")
  }

  /** What the body says under a key, or else this. */
  function Said(p: Payload, key: string, otherwise: Option<string>): Option<string> {
    if key in p then p[key] else otherwise
  }

  /** The body has a null where the table allows none. */
  predicate NullColumn(p: Payload) {
    ("title" in p && p["title"].None?) || ("description" in p && p["description"].None?) || ("priority" in p && p["priority"].None?)
  }

  ghost predicate CreateTaskOutcome(t: Tables, token: string, p: Payload, id: string, event: string, at: nat, e: Effect) {
    if !SignedIn(t, token) then e == (t, Rejected(PermissionError))
    else if "project_id" !in p then e == (t, Rejected(KeyError))
    else if p["project_id"].None? && !AdminSignedIn(t, token) then e == (t, Rejected(PermissionError))
    else if p["project_id"].Some? && !Reaches(t, token, p["project_id"].value) then e == (t, Rejected(PermissionError))
    else if "status" in p && !IsStatus(p["status"]) then e == (t, Rejected(ValueError))
    else if "title" !in p then e == (t, Rejected(KeyError))
    else if p["project_id"].None? || NullColumn(p) || id in t.tasks then e == (t, Rejected(IntegrityError))
    else
      var row := Task(p["project_id"].value, p["title"].value, Said(p, "description", Some("")).value, Said(p, "assignee_id", None),
                      Said(p, "status", Some("todo")).value, Said(p, "priority", Some("medium")).value, Said(p, "due_date", None), at, at);
      Audited(t, t.(tasks := t.tasks[id := row]), Entry(t, token, event, CreatedTask, id, at), TaskRow(id, row), e)
  }

  lemma NewTaskRow(p: Payload, project: string, at: nat)
    ensures NewTask(p, project, at) ==
            if "status" in p && !IsStatus(p["status"]) then Rejected(ValueError)
            else if "title" !in p then Rejected(KeyError)
            else if NullColumn(p) then Rejected(IntegrityError)
            else Accepted(Task(project, p["title"].value, Said(p, "description", Some("")).value, Said(p, "assignee_id", None),
                               Said(p, "status", Some("todo")).value, Said(p, "priority", Some("medium")).value, Said(p, "due_date", None), at, at))
  {}

  lemma NullProjectError(p: Payload)
    ensures NullProject(p) == if "status" in p && !IsStatus(p["status"]) then ValueError else if "title" !in p then KeyError else IntegrityError
  {}

  lemma CreateTaskRule(derive: Derive, t: Tables, token: string, p: Payload, id: string, event: string, at: nat)
    ensures CreateTaskOutcome(t, token, p, id, event, at, Step(derive, t, CallCreateTask(token, p, id, event), at))
  {
    NullProjectError(p);
    if "project_id" in p && p["project_id"].Some? {
      NewTaskRow(p, p["project_id"].value, at);
      var made := NewTask(p, p["project_id"].value, at);
      if SignedIn(t, token) && made.Accepted? {
        LogAudits(t, t.(tasks := t.tasks[id := made.value]), Entry(t, token, event, CreatedTask, id, at), TaskRow(id, made.value));
      }
    }
    hide Audited, Log, NewTask, IsStatus, NullProject, Said, NullColumn;
  }

  ghost predicate UpdateTaskOutcome(t: Tables, token: string, id: string, p: Payload, event: string, at: nat, e: Effect) {
    if !SignedIn(t, token) then e == (t, Rejected(PermissionError))
    else if id !in t.tasks then e == (t, Rejected(KeyError))
    else if !Reaches(t, token, t.tasks[id].projectId) then e == (t, Rejected(PermissionError))
    else if p.Keys !! {"title", "description", "assignee_id", "status", "priority", "due_date"} then e == (t, Accepted(TaskRow(id, t.tasks[id])))
    else if "status" in p && !IsStatus(p["status"]) then e == (t, Rejected(ValueError))
    else if NullColumn(p) then e == (t, Rejected(IntegrityError))
    else
      var was := t.tasks[id];
      var row := Task(was.projectId, Said(p, "title", Some(was.title)).value, Said(p, "description", Some(was.description)).value,
                      Said(p, "assignee_id", was.assignee), Said(p, "status", Some(was.status)).value,
                      Said(p, "priority", Some(was.priority)).value, Said(p, "due_date", was.dueDate), was.createdAt, at);
      Audited(t, t.(tasks := t.tasks[id := row]), Entry(t, token, event, UpdatedTask, id, at), TaskRow(id, row), e)
  }

  lemma UpdatedTaskRow(was: Task, p: Payload, at: nat)
    ensures Updated(was, p, at) ==
            if "status" in p && !IsStatus(p["status"]) then Rejected(ValueError)
            else if NullColumn(p) then Rejected(IntegrityError)
            else Accepted(Task(was.projectId, Said(p, "title", Some(was.title)).value, Said(p, "description", Some(was.description)).value,
                               Said(p, "assignee_id", was.assignee), Said(p, "status", Some(was.status)).value,
                               Said(p, "priority", Some(was.priority)).value, Said(p, "due_date", was.dueDate), was.createdAt, at))
  {}

  lemma UpdatesMeaning(p: Payload)
    ensures Updates(p) <==> !(p.Keys !! {"title", "description", "assignee_id", "status", "priority", "due_date"})
  {
    var keys := {"title", "description", "assignee_id", "status", "priority", "due_date"};
    assert forall k :: k in keys ==> (k in p <==> k in p.Keys);
    if k :| k in p.Keys && k in keys {
      assert Updates(p);
    }
  }

  lemma UpdateTaskRule(derive: Derive, t: Tables, token: string, id: string, p: Payload, event: string, at: nat)
    ensures UpdateTaskOutcome(t, token, id, p, event, at, Step(derive, t, CallUpdateTask(token, id, p, event), at))
  {
    UpdatesMeaning(p);
    if id in t.tasks {
      UpdatedTaskRow(t.tasks[id], p, at);
      var made := Updated(t.tasks[id], p, at);
      if SignedIn(t, token) && made.Accepted? {
        LogAudits(t, t.(tasks := t.tasks[id := made.value]), Entry(t, token, event, UpdatedTask, id, at), TaskRow(id, made.value));
      }
    }
    hide Audited, Log, Updated, IsStatus, Said, NullColumn, Updates;
  }

  // ----- Passwords over runs -----

  /**
   * Once a user has been stored with a password, then after any run of calls a login under that name is accepted exactly
   * when its password derives to the same digest under the stored salt, and the drawn token is free.
   */
  lemma PasswordStands(derive: Derive, t: Tables, maker: string, name: string, password: string, salt: string, role: string, id: string,
                       event: string, at: nat, calls: seq<(Call, nat)>, attempt: string, token: string, later: nat)
    requires Sound(t) && id !in t.users
    requires id in Step(derive, t, CallCreateUser(maker, name, password, salt, role, id, event), at).0.users
    ensures var made := Step(derive, t, CallCreateUser(maker, name, password, salt, role, id, event), at).0;
            var reached := Run(derive, made, calls);
            var (after, result) := Step(derive, reached, CallLogin(name, attempt, token), later);
            && (result.Accepted? <==> derive(attempt, salt) == derive(password, salt) && token !in reached.sessions)
            && (result.Accepted? ==> result == Accepted(LoggedIn(token, id)) && after.sessions == reached.sessions[token := Session(id, later)])
  {
    var call := CallCreateUser(maker, name, password, salt, role, id, event);
    var made := Step(derive, t, call, at).0;
    NewUserStored(derive, t, maker, name, password, salt, role, id, event, at);
    StepSound(derive, t, call, at);
    RunSound(derive, made, calls);
    RunKeepsRows(derive, made, calls);
    var reached := Run(derive, made, calls);
    hide Step, Run, Sound;
    assert reached.users[id] == made.users[id];
    StoredPassword(derive, reached, name, password, salt, id, attempt, token, later);
  }

  lemma NewUserStored(derive: Derive, t: Tables, maker: string, name: string, password: string, salt: string, role: string, id: string,
                      event: string, at: nat)
    requires id !in t.users && id in Step(derive, t, CallCreateUser(maker, name, password, salt, role, id, event), at).0.users
    ensures var row := Step(derive, t, CallCreateUser(maker, name, password, salt, role, id, event), at).0.users[id];
            row.username == name && row.passwordHash == PasswordHash(salt, derive(password, salt))
  {
    CreateUserRule(derive, t, maker, name, password, salt, role, id, event, at);
    hide Step, EventIdFree, NameFree, AdminSignedIn;
  }

  lemma StoredPassword(derive: Derive, t: Tables, name: string, password: string, salt: string, id: string, attempt: string, token: string, at: nat)
    requires Sound(t) && id in t.users && t.users[id].username == name && t.users[id].passwordHash == PasswordHash(salt, derive(password, salt))
    ensures var (after, result) := Step(derive, t, CallLogin(name, attempt, token), at);
            && (result.Accepted? <==> derive(attempt, salt) == derive(password, salt) && token !in t.sessions)
            && (result.Accepted? ==> result == Accepted(LoggedIn(token, id)) && after.sessions == t.sessions[token := Session(id, at)])
  {
    LoginRule(derive, t, name, attempt, token, at);
    OnlyOneNamed(t, id, name);
    hide Step, Sound;
    if derive(attempt, salt) == derive(password, salt) {
      assert Fits(derive, t, name, attempt, id);
    } else {
      assert NobodyFits(derive, t, name, attempt);
    }
  }

  lemma OnlyOneNamed(t: Tables, id: string, name: string)
    requires Sound(t) && id in t.users && t.users[id].username == name
    ensures forall other :: other in t.users && t.users[other].username == name ==> other == id
  {}

  // ----- What a query shows -----

  lemma VisibleTasksRule(t: Tables, token: string, status: Option<string>)
    requires SignedIn(t, token)
    ensures VisibleTasks(t, t.sessions[token].userId, status) ==
            set id | id in t.tasks && Reaches(t, token, t.tasks[id].projectId) && (status.None? || status.value == "" || t.tasks[id].status == status.value)
  {}

  lemma VisibleProjectsRule(t: Tables, token: string)
    requires SignedIn(t, token)
    ensures VisibleProjects(t, t.sessions[token].userId) == set id | id in t.projects && Reaches(t, token, id)
  {}

  /** Each task someone signed in may see, of the asked status, once, and the newest first. */
  ghost predicate ShowsTasks(t: Tables, token: string, status: Option<string>, rows: seq<(string, Task)>) {
    && (forall r :: r in rows <==>
          && r.0 in t.tasks && r.1 == t.tasks[r.0] && Reaches(t, token, r.1.projectId)
          && (status.None? || status.value == "" || r.1.status == status.value))
    && (forall i, j :: 0 <= i < j < |rows| ==> rows[i] != rows[j] && rows[i].1.updatedAt >= rows[j].1.updatedAt)
  }

  lemma TasksShown(t: Tables, token: string, status: Option<string>, rows: seq<(string, Task)>)
    requires SignedIn(t, token) && Lists(rows, t.tasks, VisibleTasks(t, t.sessions[token].userId, status)) && Ascending(NewestFirst, rows)
    ensures ShowsTasks(t, token, status, rows)
  {
    VisibleTasksRule(t, token, status);
    hide Reaches;
    forall i, j | 0 <= i < j < |rows| ensures rows[i].1.updatedAt >= rows[j].1.updatedAt {
      assert NewestFirst(rows[i], rows[j]);
    }
    hide VisibleTasks, NewestFirst;
  }

  /** Likewise projects, by name. */
  ghost predicate ShowsProjects(t: Tables, token: string, rows: seq<(string, Project)>) {
    && (forall r :: r in rows <==> r.0 in t.projects && r.1 == t.projects[r.0] && Reaches(t, token, r.0))
    && (forall i, j :: 0 <= i < j < |rows| ==> rows[i] != rows[j] && StrLe(rows[i].1.name, rows[j].1.name))
  }

  lemma ProjectsShown(t: Tables, token: string, rows: seq<(string, Project)>)
    requires SignedIn(t, token) && Lists(rows, t.projects, VisibleProjects(t, t.sessions[token].userId)) && Ascending(ByName, rows)
    ensures ShowsProjects(t, token, rows)
  {
    VisibleProjectsRule(t, token);
    hide Reaches, StrLe;
    forall i, j | 0 <= i < j < |rows| ensures StrLe(rows[i].1.name, rows[j].1.name) {
      assert ByName(rows[i], rows[j]);
    }
    hide VisibleProjects, ByName;
  }

  /** How many tasks of a status someone signed in may see. */
  function TaskCount(t: Tables, token: string, status: string): nat {
    |set id | id in t.tasks && Reaches(t, token, t.tasks[id].projectId) && t.tasks[id].status == status|
  }

  lemma TasksCounted(t: Tables, token: string, status: string)
    requires SignedIn(t, token) && status != ""
    ensures |VisibleTasks(t, t.sessions[token].userId, Some(status))| == TaskCount(t, token, status)
  {
    VisibleTasksRule(t, token, Some(status));
    hide Reaches, VisibleTasks;
    assert (set id | id in t.tasks && Reaches(t, token, t.tasks[id].projectId) && (Some(status).None? || Some(status).value == "" || t.tasks[id].status == Some(status).value))
        == set id | id in t.tasks && Reaches(t, token, t.tasks[id].projectId) && t.tasks[id].status == status;
  }
}
