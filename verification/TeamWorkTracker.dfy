/** The tracker service: methods that update the tables in place, and queries over them. */
module TeamWorkTracker {
  import opened Order
  import opened TrackerTables
  import opened TrackerRules
  import opened Wrappers

  class TeamWorkTrackerService {
    const derive: Derive
    var users: map<string, User>
    var sessions: map<string, Session>
    var projects: map<string, Project>
    var memberships: seq<(string, string)>
    var tasks: map<string, Task>
    var audit: seq<Event>

    ghost function State(): Tables
      reads this
    {
      Tables(users, sessions, projects, memberships, tasks, audit)
    }

    ghost predicate Valid()
      reads this
    {
      Sound(State())
    }

    constructor (derive: Derive)
      ensures Valid() && State() == EMPTY && this.derive == derive
    {
      this.derive := derive;
      users, sessions, projects, memberships, tasks, audit := map[], map[], map[], [], map[], [];
    }

    /** The insertion of an event, whose drawn id may be taken. */
    method Audit(e: Event, reply: Reply) returns (r: Result<Reply>)
      modifies this`audit
      ensures (State(), r) == Log(old(State()), e, reply)
    {
      if EventTaken(audit, e.id) {
        return Rejected(IntegrityError);
      }
      audit := audit + [e];
      r := Accepted(reply);
    }

    method CurrentUser(token: string) returns (actor: Result<string>)
      ensures actor == RequireUser(State(), token)
    {
      if token !in sessions || sessions[token].userId !in users {
        return Rejected(PermissionError);
      }
      return Accepted(sessions[token].userId);
    }

    method CurrentAdmin(token: string) returns (actor: Result<string>)
      ensures actor == RequireAdmin(State(), token)
    {
      actor := CurrentUser(token);
      if actor.Accepted? && users[actor.value].role != Admin {
        actor := Rejected(PermissionError);
      }
    }

    method LogIn(name: string, password: string, token: string, at: nat) returns (r: Result<Reply>)
      requires Valid()
      modifies this`sessions
      ensures Valid() && (State(), r) == Login(derive, old(State()), name, password, token, at)
    {
      LoginSound(derive, State(), name, password, token, at);
      hide Sound;
      var id := UserNamed(users, name);
      if id.None? || !CheckPassword(derive, password, users[id.value].passwordHash) {
        return Rejected(PermissionError);
      }
      if token in sessions {
        return Rejected(IntegrityError);
      }
      sessions := sessions[token := Session(id.value, at)];
      r := Accepted(LoggedIn(token, id.value));
    }

    method LogOut(token: string) returns (r: Result<Reply>)
      requires Valid()
      modifies this`sessions
      ensures Valid() && (State(), r) == Logout(old(State()), token)
      ensures RequireUser(State(), token) == Rejected(PermissionError)
      ensures forall other :: other != token ==> RequireUser(State(), other) == RequireUser(old(State()), other)
    {
      LogoutSound(State(), token);
      LoggedOutIsOut(State(), token);
      hide Sound;
      sessions := sessions - {token};
      r := Accepted(LoggedOut);
    }

    method AddUser(actor: Option<string>, name: string, hash: PasswordHash, role: string, id: string, event: string, at: nat)
      returns (r: Result<Reply>)
      modifies this`users, this`audit
      ensures (State(), r) == InsertUser(old(State()), actor, name, hash, role, id, event, at)
    {
      if role != "admin" && role != "member" {
        return Rejected(ValueError);
      }
      if id in users || NameTaken(users, name) {
        return Rejected(IntegrityError);
      }
      users := users[id := UserRow(name, hash, role, at)];
      r := Accepted(UserCreated(id));
      if actor.Some? {
        r := Audit(Event(event, actor.value, CreatedUser, id, at), UserCreated(id));
      }
    }

    method BootstrapAdmin(name: string, password: string, salt: string, id: string, token: string, at: nat) returns (r: Result<Reply>)
      requires Valid()
      modifies this
      ensures Valid() && (State(), r) == Bootstrap(derive, old(State()), name, password, salt, id, token, at)
    {
      BootstrapSound(derive, State(), name, password, salt, id, token, at);
      InsertUserSound(State(), None, name, HashPassword(derive, password, salt), "admin", id, "", at);
      hide Sound, Login, InsertUser;
      if HasAdmin(users) {
        r := LogIn(name, password, token, at);
        return;
      }
      r := AddUser(None, name, HashPassword(derive, password, salt), "admin", id, "", at);
      if r.Rejected? {
        return;
      }
      r := LogIn(name, password, token, at);
    }

    method NewUser(token: string, name: string, password: string, salt: string, role: string, id: string, event: string, at: nat)
      returns (r: Result<Reply>)
      requires Valid()
      modifies this`users, this`audit
      ensures Valid() && (State(), r) == CreateUser(derive, old(State()), token, name, password, salt, role, id, event, at)
    {
      CreateUserSound(derive, State(), token, name, password, salt, role, id, event, at);
      hide Sound, InsertUser, RequireAdmin;
      var actor := CurrentAdmin(token);
      if actor.Rejected? {
        return Rejected(actor.error);
      }
      r := AddUser(Some(actor.value), name, HashPassword(derive, password, salt), role, id, event, at);
    }

    method NewProject(token: string, name: string, description: string, id: string, event: string, at: nat) returns (r: Result<Reply>)
      requires Valid()
      modifies this`projects, this`memberships, this`audit
      ensures Valid() && (State(), r) == CreateProject(old(State()), token, name, description, id, event, at)
    {
      CreateProjectSound(State(), token, name, description, id, event, at);
      hide Sound, RequireAdmin, EventTaken;
      var actor := CurrentAdmin(token);
      if actor.Rejected? {
        return Rejected(actor.error);
      }
      if id in projects {
        return Rejected(IntegrityError);
      }
      projects := projects[id := Project(name, description, at, at)];
      if (id, actor.value) in memberships {
        return Rejected(IntegrityError);
      }
      memberships := memberships + [(id, actor.value)];
      r := Audit(Event(event, actor.value, CreatedProject, id, at), ProjectRow(id, projects[id]));
    }

    method NewMember(token: string, project: string, user: string, event: string, at: nat) returns (r: Result<Reply>)
      requires Valid()
      modifies this`memberships, this`audit
      ensures Valid() && (State(), r) == AddMember(old(State()), token, project, user, event, at)
    {
      AddMemberSound(State(), token, project, user, event, at);
      hide Sound, RequireAdmin, EventTaken;
      var actor := CurrentAdmin(token);
      if actor.Rejected? {
        return Rejected(actor.error);
      }
      if (project, user) !in memberships {
        memberships := memberships + [(project, user)];
      }
      r := Audit(Event(event, actor.value, AddedMember, project, at), MemberAdded);
    }

    method MayReach(user: string, project: string) returns (allowed: bool)
      requires user in users
      ensures allowed == MayAccess(State(), user, project)
    {
      allowed := users[user].role == Admin || (project, user) in memberships;
    }

    method AddTask(token: string, p: Payload, id: string, event: string, at: nat) returns (r: Result<Reply>)
      requires Valid()
      modifies this`tasks, this`audit
      ensures Valid() && (State(), r) == CreateTask(old(State()), token, p, id, event, at)
    {
      CreateTaskSound(State(), token, p, id, event, at);
      hide Sound, NullProject, MayAccess, EventTaken;
      var actor := CurrentUser(token);
      if actor.Rejected? {
        return Rejected(actor.error);
      }
      if "project_id" !in p {
        return Rejected(KeyError);
      }
      if p["project_id"].None? {
        return Rejected(if users[actor.value].role == Admin then NullProject(p) else PermissionError);
      }
      var project := p["project_id"].value;
      var allowed := MayReach(actor.value, project);
      if !allowed {
        return Rejected(PermissionError);
      }
      var status := GetOr(p, "status", Some("todo"));
      if status.None? || !ValidStatus(status.value) {
        return Rejected(ValueError);
      }
      if "title" !in p {
        return Rejected(KeyError);
      }
      var title, description, priority := p["title"], GetOr(p, "description", Some("")), GetOr(p, "priority", Some("medium"));
      if title.None? || description.None? || priority.None? || id in tasks {
        return Rejected(IntegrityError);
      }
      tasks := tasks[id := Task(project, title.value, description.value, GetOr(p, "assignee_id", None), status.value, priority.value,
                                GetOr(p, "due_date", None), at, at)];
      r := Audit(Event(event, actor.value, CreatedTask, id, at), TaskRow(id, tasks[id]));
    }

    method ChangeTask(token: string, id: string, p: Payload, event: string, at: nat) returns (r: Result<Reply>)
      requires Valid()
      modifies this`tasks, this`audit
      ensures Valid() && (State(), r) == UpdateTask(old(State()), token, id, p, event, at)
    {
      UpdateTaskSound(State(), token, id, p, event, at);
      hide Sound, MayAccess, EventTaken;
      var actor := CurrentUser(token);
      if actor.Rejected? {
        return Rejected(actor.error);
      }
      if id !in tasks {
        return Rejected(KeyError);
      }
      var allowed := MayReach(actor.value, tasks[id].projectId);
      if !allowed {
        return Rejected(PermissionError);
      }
      if !Updates(p) {
        return Accepted(TaskRow(id, tasks[id]));
      }
      if "status" in p && (p["status"].None? || !ValidStatus(p["status"].value)) {
        return Rejected(ValueError);
      }
      if ("title" in p && p["title"].None?) || ("description" in p && p["description"].None?) || ("priority" in p && p["priority"].None?) {
        return Rejected(IntegrityError);
      }
      var row := ApplyUpdates(tasks[id], p, at);
      tasks := tasks[id := row];
      r := Audit(Event(event, actor.value, UpdatedTask, id, at), TaskRow(id, tasks[id]));
    }

    /** The columns named in the body are set one after the other. */
    method ApplyUpdates(task: Task, p: Payload, at: nat) returns (row: Task)
      requires Updated(task, p, at).Accepted?
      ensures row == Updated(task, p, at).value
    {
      row := task.(updatedAt := at);
      if "title" in p { row := row.(title := p["title"].value); }
      if "description" in p { row := row.(description := p["description"].value); }
      if "assignee_id" in p { row := row.(assignee := p["assignee_id"]); }
      if "status" in p { row := row.(status := p["status"].value); }
      if "priority" in p { row := row.(priority := p["priority"].value); }
      if "due_date" in p { row := row.(dueDate := p["due_date"]); }
    }

    // ----- Queries -----

    /** How many rows a join with the user's memberships yields for a project. */
    method Joined(project: string, user: string) returns (n: nat)
      requires Valid()
      ensures n == if (project, user) in memberships then 1 else 0
    {
      n := 0;
      for i := 0 to |memberships|
        invariant n == multiset(memberships[..i])[(project, user)]
      {
        assert memberships[..i + 1] == memberships[..i] + [memberships[i]];
        if memberships[i] == (project, user) {
          n := n + 1;
        }
      }
      assert memberships[..|memberships|] == memberships;
      DistinctOnce(memberships, (project, user));
    }

    /** The user's rows for a project: one for an administrator, as many as the join gives for a member. */
    method Copies(user: string, project: string) returns (n: nat)
      requires Valid() && user in users
      ensures n == if MayAccess(State(), user, project) then 1 else 0
    {
      if users[user].role == Admin {
        return 1;
      }
      n := Joined(project, user);
    }

    /** The rows of the query, before ordering. */
    method TaskRows(user: string, status: Option<string>) returns (rows: seq<(string, Task)>)
      requires Valid() && user in users
      ensures Lists(rows, tasks, VisibleTasks(State(), user, status))
    {
      ghost var visible := VisibleTasks(State(), user, status);
      hide Sound, MayAccess, Lists, Wants, Elements;
      var order := Sorted(tasks.Keys);
      rows := [];
      NothingListed(rows, tasks, order, visible);
      for i := 0 to |order|
        invariant Lists(rows, tasks, Elements(order[..i]) * visible)
      {
        var id := order[i];
        ghost var before := rows;
        ListsNext(rows, tasks, order, i, visible);
        var copies := Copies(user, tasks[id].projectId);
        assert id in visible <==> copies == 1 && Wants(status, tasks[id]);
        if Wants(status, tasks[id]) {
          rows := rows + Repeat(copies, (id, tasks[id]));
        }
        assert rows == if id in visible then before + [(id, tasks[id])] else before;
        hide VisibleTasks;
      }
      AllListed(order, tasks, visible);
    }

    method ListTasks(token: string, status: Option<string>) returns (r: Result<seq<(string, Task)>>)
      requires Valid()
      ensures RequireUser(State(), token).Rejected? ==> r == Rejected(PermissionError)
      ensures RequireUser(State(), token).Accepted? ==>
                && r.Accepted?
                && Lists(r.value, tasks, VisibleTasks(State(), RequireUser(State(), token).value, status))
      ensures r.Accepted? <==> SignedIn(State(), token)
      ensures r.Accepted? ==> ShowsTasks(State(), token, status, r.value)
    {
      var actor := CurrentUser(token);
      if actor.Rejected? {
        return Rejected(actor.error);
      }
      hide Sound, MayAccess, Lists, RequireUser, VisibleTasks;
      var rows := TaskRows(actor.value, status);
      OrdersOfRows();
      SortAscends(NewestFirst, rows);
      ListsSorted(NewestFirst, rows, tasks, VisibleTasks(State(), actor.value, status));
      TasksShown(State(), token, status, Sort(NewestFirst, rows));
      r := Accepted(Sort(NewestFirst, rows));
    }

    method ProjectRows(user: string) returns (rows: seq<(string, Project)>)
      requires Valid() && user in users
      ensures Lists(rows, projects, VisibleProjects(State(), user))
    {
      ghost var visible := VisibleProjects(State(), user);
      hide Sound, MayAccess, Lists, Elements;
      var order := Sorted(projects.Keys);
      rows := [];
      NothingListed(rows, projects, order, visible);
      for i := 0 to |order|
        invariant Lists(rows, projects, Elements(order[..i]) * visible)
      {
        var id := order[i];
        ghost var before := rows;
        ListsNext(rows, projects, order, i, visible);
        var copies := Copies(user, id);
        assert id in visible <==> copies == 1;
        rows := rows + Repeat(copies, (id, projects[id]));
        assert rows == if id in visible then before + [(id, projects[id])] else before;
        hide VisibleProjects;
      }
      AllListed(order, projects, visible);
    }

    method ListProjects(token: string) returns (r: Result<seq<(string, Project)>>)
      requires Valid()
      ensures RequireUser(State(), token).Rejected? ==> r == Rejected(PermissionError)
      ensures RequireUser(State(), token).Accepted? ==>
                && r.Accepted?
                && Lists(r.value, projects, VisibleProjects(State(), RequireUser(State(), token).value))
      ensures r.Accepted? <==> SignedIn(State(), token)
      ensures r.Accepted? ==> ShowsProjects(State(), token, r.value)
    {
      var actor := CurrentUser(token);
      if actor.Rejected? {
        return Rejected(actor.error);
      }
      hide Sound, MayAccess, Lists, RequireUser, VisibleProjects;
      var rows := ProjectRows(actor.value);
      OrdersOfRows();
      SortAscends(ByName, rows);
      ListsSorted(ByName, rows, projects, VisibleProjects(State(), actor.value));
      ProjectsShown(State(), token, Sort(ByName, rows));
      r := Accepted(Sort(ByName, rows));
    }

    method Dashboard(token: string) returns (r: Result<Board>)
      requires Valid()
      ensures r.Accepted? <==> SignedIn(State(), token)
      ensures r.Accepted? ==> r.value.tasks == r.value.todo + r.value.inProgress + r.value.done
      ensures r.Accepted? ==> r.value.projects == |set id | id in projects && Reaches(State(), token, id)|
      ensures r.Accepted? ==>
                && r.value.todo == TaskCount(State(), token, "todo")
                && r.value.inProgress == TaskCount(State(), token, "in_progress")
                && r.value.done == TaskCount(State(), token, "done")
    {
      hide Sound, VisibleTasks, VisibleProjects, ShowsTasks, ShowsProjects, Reaches, TaskCount;
      var allProjects := ListProjects(token);
      if allProjects.Rejected? {
        return Rejected(allProjects.error);
      }
      var all := ListTasks(token, None);
      var todo := ListTasks(token, Some("todo"));
      var progress := ListTasks(token, Some("in_progress"));
      var done := ListTasks(token, Some("done"));
      StatusesAddUp(State(), RequireUser(State(), token).value);
      VisibleProjectsRule(State(), token);
      StatusesDiffer();
      TasksCounted(State(), token, "todo");
      TasksCounted(State(), token, "in_progress");
      TasksCounted(State(), token, "done");
      r := Accepted(Board(|allProjects.value|, |all.value|, |todo.value|, |progress.value|, |done.value|));
    }
  }

  datatype Board = Board(projects: nat, tasks: nat, todo: nat, inProgress: nat, done: nat)

  /** So many copies of a row. */
  function Repeat<T>(n: nat, row: T): (rows: seq<T>)
    ensures |rows| == n && forall i :: 0 <= i < n ==> rows[i] == row
  {
    seq(n, _ => row)
  }

  lemma NothingListed<V(!new)>(rows: seq<(string, V)>, m: map<string, V>, order: seq<string>, visible: set<string>)
    requires rows == []
    ensures Lists(rows, m, Elements(order[..0]) * visible)
  {
    assert Elements(order[..0]) * visible == {};
  }

  lemma ListsNext<V(!new)>(rows: seq<(string, V)>, m: map<string, V>, order: seq<string>, i: nat, visible: set<string>)
    requires i < |order| && Lists(rows, m, Elements(order[..i]) * visible)
    requires Distinct(order) && Elements(order) == m.Keys
    ensures order[i] in m
    ensures order[i] in visible ==> Lists(rows + [(order[i], m[order[i]])], m, Elements(order[..i + 1]) * visible)
    ensures order[i] !in visible ==> Lists(rows, m, Elements(order[..i + 1]) * visible)
  {
    hide Lists;
    assert order[i] in Elements(order);
    var before, after := Elements(order[..i]) * visible, Elements(order[..i + 1]) * visible;
    ElementsPush(order, i);
    if order[i] in visible {
      assert after == before + {order[i]};
      ListsMore(rows, m, before, order[i]);
    } else {
      assert after == before;
    }
  }

  lemma AllListed<V>(order: seq<string>, m: map<string, V>, visible: set<string>)
    requires Elements(order) == m.Keys && visible <= m.Keys
    ensures Elements(order[..|order|]) * visible == visible
  {
    assert order[..|order|] == order;
  }
}
