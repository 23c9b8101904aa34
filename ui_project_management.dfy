/** The project management screens (pkg/ui/update_project_management.go):
    creating and deleting projects, and adding or removing one config of the
    project being edited. The store has no update call here: a membership
    edit deletes the project and creates it again under the same name, so
    the project moves to the end of the in-memory store's list (the SQLite
    store lists projects by name), stops being the active one, and is lost
    if the second step fails. */
module UIProjectManagement {
  import opened Common
  import opened GoStrings
  import Store
  import opened UITypes

  /** The project list after DeleteProject(name): the first project with
      that name is gone and the others keep their order. */
  function WithoutProject(projects: seq<Project>, name: string): (r: seq<Project>)
    requires name in Names(projects)
    ensures |r| == |projects| - 1
    ensures forall p :: p in projects && p.Name != name ==> p in r
    ensures forall p :: p in r ==> p in projects
  {
    var k := Store.ProjectIndex(projects, name);
    assert projects == projects[..k] + [projects[k]] + projects[k + 1..];
    projects[..k] + projects[k + 1..]
  }

  /** CreateProject(name, forwards) succeeds on this project list. */
  predicate Recreatable(projects: seq<Project>, name: string, forwards: seq<string>, configs: seq<PortForwardConfig>) {
    TrimSpace(name) != "" && TrimSpace(name) !in Names(projects)
    && forall k :: 0 <= k < |forwards| ==> forwards[k] in IDs(configs)
  }

  /** The active project once the project called name has been deleted. */
  function ActiveAfterDelete(active: Option<Project>, name: string): Option<Project> {
    if active.Some? && active.value.Name == name then None else active
  }

  /** The store's projects and active project after the delete-and-recreate
      of the project called name with new forwards, from projects0 and
      active0: a missing project changes nothing; otherwise the project is
      gone and, if it was active, no project is active, and it comes back at
      the end when CreateProject accepts it. */
  predicate ReplacedAs(projects0: seq<Project>, active0: Option<Project>, projects: seq<Project>, active: Option<Project>,
                       name: string, forwards: seq<string>, configs: seq<PortForwardConfig>) {
    if name !in Names(projects0) then projects == projects0 && active == active0
    else
      var rest := WithoutProject(projects0, name);
      active == ActiveAfterDelete(active0, name)
      && projects == (if Recreatable(rest, name, forwards, configs) then rest + [Project(TrimSpace(name), forwards)] else rest)
  }

  /** Trimming twice trims once. */
  lemma TrimSpaceTwice(s: string)
    ensures TrimSpace(TrimSpace(s)) == TrimSpace(s)
  {
    TrimSpaceShape(s);
    TrimSpaceIdentity(TrimSpace(s));
  }

  /** The delete-and-recreate step both membership helpers perform. */
  method ReplaceProject(m: Model, name: string, forwards: seq<string>) returns (err: Option<string>)
    modifies m.configStore`projects, m.configStore`activeProject
    ensures name !in Names(old(m.configStore.projects)) ==>
      err == Some("failed to delete project for update: " + Store.ErrorText(Store.ProjectMissing(name)))
      && m.configStore.projects == old(m.configStore.projects)
      && m.configStore.activeProject == old(m.configStore.activeProject)
    ensures name in Names(old(m.configStore.projects)) ==>
      var rest := WithoutProject(old(m.configStore.projects), name);
      m.configStore.activeProject == ActiveAfterDelete(old(m.configStore.activeProject), name)
      && (err == None <==> Recreatable(rest, name, forwards, m.configStore.configs))
      && (err == None ==> m.configStore.projects == rest + [Project(TrimSpace(name), forwards)])
      && (err.Some? ==> m.configStore.projects == rest && HasPrefix(err.value, "failed to recreate project: "))
  {
    var e := m.configStore.DeleteProject(name);
    if e.Some? {
      return Some("failed to delete project for update: " + Store.ErrorText(e.value));
    }
    e := m.configStore.CreateProject(name, forwards);
    if e.Some? {
      var msg := "failed to recreate project: " + Store.ErrorText(e.value);
      assert msg[..|"failed to recreate project: "|] == "failed to recreate project: ";
      return Some(msg);
    }
    return None;
  }

  /** addServiceToProject: append the ID (duplicates are not checked) and
      replace the project; the edited copy is updated only on success. */
  method AddServiceToProject(m: Model, serviceID: string) returns (err: Option<string>)
    modifies m`currentProject, m.configStore`projects, m.configStore`activeProject
    ensures old(m.currentProject).None? ==>
      err == Some("no project selected") && m.currentProject == None
      && m.configStore.projects == old(m.configStore.projects)
      && m.configStore.activeProject == old(m.configStore.activeProject)
    ensures old(m.currentProject).Some? ==>
      var cur := old(m.currentProject).value;
      var updated := cur.Forwards + [serviceID];
      (err == None <==> cur.Name in Names(old(m.configStore.projects))
                        && Recreatable(WithoutProject(old(m.configStore.projects), cur.Name), cur.Name, updated, m.configStore.configs))
      && (err == None ==>
            m.currentProject == Some(Project(cur.Name, updated))
            && m.configStore.projects == WithoutProject(old(m.configStore.projects), cur.Name) + [Project(TrimSpace(cur.Name), updated)])
      && (err.Some? ==> m.currentProject == old(m.currentProject))
      && (err.Some? && cur.Name in Names(old(m.configStore.projects)) ==>
            m.configStore.projects == WithoutProject(old(m.configStore.projects), cur.Name))
      && ReplacedAs(old(m.configStore.projects), old(m.configStore.activeProject), m.configStore.projects,
                    m.configStore.activeProject, cur.Name, updated, m.configStore.configs)
  {
    if m.currentProject.None? {
      return Some("no project selected");
    }
    var cur := m.currentProject.value;
    var updated := cur.Forwards + [serviceID];
    err := ReplaceProject(m, cur.Name, updated);
    if err.None? {
      m.currentProject := Some(Project(cur.Name, updated));
    }
  }

  /** The loop of removeServiceFromProject: keep every other ID, in order,
      and note whether the ID occurred. */
  method DropID(forwards: seq<string>, id: string) returns (updated: seq<string>, found: bool)
    ensures updated == Without(forwards, id)
    ensures found <==> id in forwards
  {
    updated := [];
    found := false;
    var i := 0;
    while i < |forwards|
      invariant 0 <= i <= |forwards|
      invariant updated == Without(forwards[..i], id)
      invariant found <==> id in forwards[..i]
    {
      assert forwards[..i + 1][..i] == forwards[..i];
      if forwards[i] != id {
        updated := updated + [forwards[i]];
      } else {
        found := true;
      }
      i := i + 1;
    }
    assert forwards[..|forwards|] == forwards;
  }

  /** removeServiceFromProject: drop every occurrence of the ID and replace
      the project; an absent ID changes nothing. */
  method RemoveServiceFromProject(m: Model, serviceID: string) returns (err: Option<string>)
    modifies m`currentProject, m.configStore`projects, m.configStore`activeProject
    ensures old(m.currentProject).None? ==>
      err == Some("no project selected") && m.currentProject == None
      && m.configStore.projects == old(m.configStore.projects)
      && m.configStore.activeProject == old(m.configStore.activeProject)
    ensures old(m.currentProject).Some? && serviceID !in old(m.currentProject).value.Forwards ==>
      err == Some("service not found in project") && m.currentProject == old(m.currentProject)
      && m.configStore.projects == old(m.configStore.projects)
      && m.configStore.activeProject == old(m.configStore.activeProject)
    ensures old(m.currentProject).Some? && serviceID in old(m.currentProject).value.Forwards ==>
      var cur := old(m.currentProject).value;
      var updated := Without(cur.Forwards, serviceID);
      (err == None <==> cur.Name in Names(old(m.configStore.projects))
                        && Recreatable(WithoutProject(old(m.configStore.projects), cur.Name), cur.Name, updated, m.configStore.configs))
      && (err == None ==>
            m.currentProject == Some(Project(cur.Name, updated))
            && m.configStore.projects == WithoutProject(old(m.configStore.projects), cur.Name) + [Project(TrimSpace(cur.Name), updated)])
      && (err.Some? ==> m.currentProject == old(m.currentProject))
      && (err.Some? && cur.Name in Names(old(m.configStore.projects)) ==>
            m.configStore.projects == WithoutProject(old(m.configStore.projects), cur.Name))
      && ReplacedAs(old(m.configStore.projects), old(m.configStore.activeProject), m.configStore.projects,
                    m.configStore.activeProject, cur.Name, updated, m.configStore.configs)
  {
    if m.currentProject.None? {
      return Some("no project selected");
    }
    var cur := m.currentProject.value;
    var updated, found := DropID(cur.Forwards, serviceID);
    if !found {
      return Some("service not found in project");
    }
    err := ReplaceProject(m, cur.Name, updated);
    if err.None? {
      m.currentProject := Some(Project(cur.Name, updated));
    }
  }

  /** Removing an ID that was just appended to a list without it gives the
      list back: toggling a config twice restores the project's forwards. */
  lemma {:induction false} ToggleRoundTrip(forwards: seq<string>, id: string)
    requires id !in forwards
    ensures Without(forwards + [id], id) == forwards
  {
    WithoutIdentity(forwards, id);
    assert (forwards + [id])[..|forwards|] == forwards;
  }

  /** The membership test of toggleServiceInProject. */
  method ContainsID(forwards: seq<string>, id: string) returns (found: bool)
    ensures found <==> id in forwards
  {
    found := false;
    var i := 0;
    while i < |forwards|
      invariant 0 <= i <= |forwards|
      invariant !found <==> forall k :: 0 <= k < i ==> forwards[k] != id
      invariant found ==> id in forwards
    {
      if forwards[i] == id {
        found := true;
        break;
      }
      i := i + 1;
    }
  }

  /** toggleServiceInProject: the config under the cursor leaves the project
      when it is a member and joins it otherwise. */
  method ToggleServiceInProject(m: Model, cursor: int)
    modifies m`errorMsg, m`statusMsg, m`currentProject, m.configStore`projects, m.configStore`activeProject
    ensures old(m.currentProject).None? ==>
      m.errorMsg == "No project selected" && m.currentProject == None
      && m.configStore.projects == old(m.configStore.projects)
      && m.configStore.activeProject == old(m.configStore.activeProject)
    ensures old(m.currentProject).Some? && !(0 <= cursor < |m.configStore.configs|) ==>
      m.errorMsg == "Invalid service selection" && m.currentProject == old(m.currentProject)
      && m.configStore.projects == old(m.configStore.projects)
      && m.configStore.activeProject == old(m.configStore.activeProject)
    ensures old(m.currentProject).Some? && 0 <= cursor < |m.configStore.configs| ==>
      var cur := old(m.currentProject).value;
      var cfg := m.configStore.configs[cursor];
      var updated := if cfg.ID in cur.Forwards then Without(cur.Forwards, cfg.ID) else cur.Forwards + [cfg.ID];
      var ok := cur.Name in Names(old(m.configStore.projects))
                && Recreatable(WithoutProject(old(m.configStore.projects), cur.Name), cur.Name, updated, m.configStore.configs);
      (ok ==> m.currentProject == Some(Project(cur.Name, updated))
              && m.statusMsg == (if cfg.ID in cur.Forwards then "Removed " + cfg.Service + " from project " + cur.Name
                                 else "Added " + cfg.Service + " to project " + cur.Name))
      && (!ok ==> m.currentProject == old(m.currentProject)
                  && HasPrefix(m.errorMsg, if cfg.ID in cur.Forwards then "Failed to remove service: " else "Failed to add service: "))
      && ReplacedAs(old(m.configStore.projects), old(m.configStore.activeProject), m.configStore.projects,
                    m.configStore.activeProject, cur.Name, updated, m.configStore.configs)
  {
    if m.currentProject.None? {
      m.errorMsg := "No project selected";
      return;
    }
    var configs := m.configStore.configs;
    if cursor < 0 || cursor >= |configs| {
      m.errorMsg := "Invalid service selection";
      return;
    }
    var selected := configs[cursor];
    var inProject := ContainsID(m.currentProject.value.Forwards, selected.ID);
    if inProject {
      var err := RemoveServiceFromProject(m, selected.ID);
      if err.Some? {
        var msg := "Failed to remove service: " + err.value;
        assert msg[..|"Failed to remove service: "|] == "Failed to remove service: ";
        m.errorMsg := msg;
      } else {
        m.statusMsg := "Removed " + selected.Service + " from project " + m.currentProject.value.Name;
      }
    } else {
      var err := AddServiceToProject(m, selected.ID);
      if err.Some? {
        var msg := "Failed to add service: " + err.value;
        assert msg[..|"Failed to add service: "|] == "Failed to add service: ";
        m.errorMsg := msg;
      } else {
        m.statusMsg := "Added " + selected.Service + " to project " + m.currentProject.value.Name;
      }
    }
  }

  /** createProject: the trimmed input must be non-empty and a new name;
      the project starts with no forwards. */
  method CreateProject(m: Model)
    modifies m`errorMsg, m`statusMsg, m`uiState, m`projectNameInput, m.configStore`projects
    ensures var name := TrimSpace(old(m.projectNameInput));
      name == "" ==>
        m.errorMsg == "Project name cannot be empty" && m.configStore.projects == old(m.configStore.projects)
        && m.uiState == old(m.uiState) && unchanged(m`statusMsg, m`projectNameInput)
    ensures var name := TrimSpace(old(m.projectNameInput));
      name != "" && name in Names(old(m.configStore.projects)) ==>
        m.errorMsg == "Project '" + name + "' already exists" && m.configStore.projects == old(m.configStore.projects)
        && m.uiState == old(m.uiState) && unchanged(m`statusMsg, m`projectNameInput)
    ensures var name := TrimSpace(old(m.projectNameInput));
      name != "" && name !in Names(old(m.configStore.projects)) ==>
        m.configStore.projects == old(m.configStore.projects) + [Project(name, [])]
        && m.statusMsg == "Created project '" + name + "'"
        && m.uiState == StateProjectManagement && m.projectNameInput == ""
        && m.errorMsg == old(m.errorMsg)
  {
    var projectName := TrimSpace(m.projectNameInput);
    if projectName == "" {
      m.errorMsg := "Project name cannot be empty";
      return;
    }
    var idx := Store.FindProject(m.configStore.projects, projectName);
    if idx >= 0 {
      m.errorMsg := "Project '" + projectName + "' already exists";
      return;
    }
    TrimSpaceTwice(m.projectNameInput);
    var err := m.configStore.CreateProject(projectName, []);
    if err.Some? {
      // CreateProject cannot fail on a new, trimmed, non-empty name without forwards.
      assert false;
    }
    m.statusMsg := "Created project '" + projectName + "'";
    m.uiState := StateProjectManagement;
    m.projectNameInput := "";
  }

  /** A project just created is the one a lookup by its name finds, at the
      end of the list. */
  lemma CreatedProjectFound(projects: seq<Project>, name: string)
    requires name !in Names(projects)
    ensures Store.ProjectIndex(projects + [Project(name, [])], name) == |projects|
  {
    assert Names(projects + [Project(name, [])])[|projects|] == name;
    forall k | 0 <= k < |projects|
      ensures (projects + [Project(name, [])])[k].Name != name
    {
      assert Names(projects)[k] == projects[k].Name;
    }
  }

  /** The message that refuses to delete the create entry. */
  const CreateRowUndeletable := "Cannot delete the 'Create New Project' option"

  /** deleteSelectedProject: row 0 is the create entry and is never
      deleted; row k deletes projects[k - 1], clearing the active project
      first when it is that one. */
  method DeleteSelectedProject(m: Model, cursor: nat)
    modifies m`errorMsg, m`statusMsg, m.configStore`projects, m.configStore`activeProject
    ensures cursor == 0 ==>
      m.errorMsg == CreateRowUndeletable
      && m.configStore.projects == old(m.configStore.projects)
      && m.configStore.activeProject == old(m.configStore.activeProject)
    ensures cursor > |old(m.configStore.projects)| ==>
      m.errorMsg == "Invalid project selection"
      && m.configStore.projects == old(m.configStore.projects)
      && m.configStore.activeProject == old(m.configStore.activeProject)
    ensures 0 < cursor <= |old(m.configStore.projects)| ==>
      var name := old(m.configStore.projects)[cursor - 1].Name;
      name in Names(old(m.configStore.projects))
      && m.configStore.projects == WithoutProject(old(m.configStore.projects), name)
      && m.configStore.activeProject == ActiveAfterDelete(old(m.configStore.activeProject), name)
      && m.statusMsg == "Deleted project '" + name + "'"
  {
    if cursor == 0 {
      m.errorMsg := CreateRowUndeletable;
      return;
    }
    var projects := m.configStore.projects;
    if cursor - 1 >= |projects| {
      m.errorMsg := "Invalid project selection";
      return;
    }
    var selected := projects[cursor - 1];
    assert Names(projects)[cursor - 1] == selected.Name;
    if m.configStore.GetActiveProjectName() == selected.Name {
      m.configStore.ClearActiveProject();
    }
    var err := m.configStore.DeleteProject(selected.Name);
    if err.Some? {
      // DeleteProject cannot fail for a name taken from the project list.
      assert false;
    }
    m.statusMsg := "Deleted project '" + selected.Name + "'";
  }
}
