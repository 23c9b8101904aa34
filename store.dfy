/** The in-memory configuration and project store of pkg/config/store.go.

    The store holds the port-forward configs, the projects, the lists kept
    from before the last reload, and the active project. The active project
    is a copy taken when it was selected, not a reference into the project
    list: later edits of the list do not show through it. Reading the YAML
    file is abstracted as a LoadSource value. */
module Store {
  import opened Common
  import opened GoStrings

  datatype StoreError =
    | ConfigNotFound(index: int, length: int)      // ErrConfigNotFound, wrapped
    | EmptyID(index: int)
    | UntrimmedID(id: string)
    | DuplicateID(id: string)
    | EmptyProjectName(index: int)
    | UntrimmedProjectName(name: string)
    | DuplicateProjectName(name: string)
    | UnknownForwardRef(project: string, id: string)
    | DirPrepareFailed(reason: string)
    | StatFailed(reason: string)
    | ReadFailed(reason: string)
    | ParseFailed(reason: string)
    | MigrationRequired(index: int)                 // a config without an id field
    | ValidationFailed(cause: StoreError)
    | ReloadFailed(cause: StoreError)
    | ProjectNotFound(name: string)                 // SetActiveProject
    | ProjectNameEmpty
    | ProjectExists(name: string)
    | ProjectMissing(name: string)                  // Update/DeleteProject
    | ForwardIDMissing(id: string)

  /** The text an error prints with %v. The configuration file's path is
      not part of the model, so the load errors leave it out, and the
      migration notice is reduced to its first sentence and the index. */
  function ErrorText(e: StoreError): string {
    match e
    case ConfigNotFound(index, length) =>
      "configuration not found at the specified index: index " + FormatInt(index) + " out of bounds (length " + FormatInt(length) + ")"
    case EmptyID(index) => "port forward at index " + FormatInt(index) + " has empty ID"
    case UntrimmedID(id) => "port forward ID '" + id + "' contains leading/trailing whitespace"
    case DuplicateID(id) => "duplicate port forward ID: '" + id + "'"
    case EmptyProjectName(index) => "project at index " + FormatInt(index) + " has empty name"
    case UntrimmedProjectName(name) => "project name '" + name + "' contains leading/trailing whitespace"
    case DuplicateProjectName(name) => "duplicate project name: '" + name + "'"
    case UnknownForwardRef(project, id) => "project '" + project + "' references non-existent port forward ID: '" + id + "'"
    case DirPrepareFailed(reason) => "failed to prepare config directory: " + reason
    case StatFailed(reason) => "failed to stat config file: " + reason
    case ReadFailed(reason) => "failed to read config file: " + reason
    case ParseFailed(reason) => "failed to unmarshal config file: " + reason
    case MigrationRequired(index) => "CONFIG MIGRATION REQUIRED: Port forward at index " + FormatInt(index) + " is missing an 'id' field."
    case ValidationFailed(cause) => "config validation failed: " + ErrorText(cause)
    case ReloadFailed(cause) => "config reload failed, kept previous config: " + ErrorText(cause)
    case ProjectNotFound(name) => "project not found: " + name
    case ProjectNameEmpty => "project name cannot be empty"
    case ProjectExists(name) => "project '" + name + "' already exists"
    case ProjectMissing(name) => "project '" + name + "' does not exist"
    case ForwardIDMissing(id) => "port forward ID '" + id + "' does not exist"
  }

  /** What reading the configuration file produced. */
  datatype LoadSource =
    | FileMissing(dirError: Option<string>)   // no file; preparing its directory may fail
    | StatError(reason: string)
    | ReadError(reason: string)
    | ParseError(reason: string)
    | Parsed(portForwards: seq<PortForwardConfig>, legacyPortForwards: seq<PortForwardConfig>, projects: seq<Project>)

  /** An issue ValidateProjectIntegrity reports. */
  datatype Issue = RemovedInvalid(id: string, project: string) | ActiveCleared(name: string)

  predicate WellFormedName(s: string) {
    s != "" && Trimmed(s)
  }

  /** The ID rules of validateConfig: every ID non-empty, trimmed and unique. */
  predicate IDsValid(configs: seq<PortForwardConfig>) {
    (forall i :: 0 <= i < |configs| ==> WellFormedName(configs[i].ID))
    && (forall a, b :: 0 <= a < b < |configs| ==> configs[a].ID != configs[b].ID)
  }

  /** The project rules of validateConfig: every name non-empty, trimmed and
      unique, and every forward one of the known IDs. */
  predicate ProjectsValid(projects: seq<Project>, known: set<string>) {
    (forall i :: 0 <= i < |projects| ==> WellFormedName(projects[i].Name))
    && (forall a, b :: 0 <= a < b < |projects| ==> projects[a].Name != projects[b].Name)
    && (forall i :: 0 <= i < |projects| ==> ForwardsKnown(projects[i].Forwards, known))
  }

  /** Every forward is one of the known IDs. */
  predicate ForwardsKnown(forwards: seq<string>, known: set<string>) {
    forall k :: 0 <= k < |forwards| ==> forwards[k] in known
  }

  /** validateConfig's rules as a whole. */
  predicate ConfigValid(configs: seq<PortForwardConfig>, projects: seq<Project>) {
    IDsValid(configs) && ProjectsValid(projects, IDSet(configs))
  }

  /** The index of the first project at or after i with the given name, or -1. */
  function ProjectIndexFrom(projects: seq<Project>, name: string, i: nat): (r: int)
    requires i <= |projects|
    ensures r == -1 || i <= r < |projects|
    ensures r >= 0 ==> projects[r].Name == name && forall k :: i <= k < r ==> projects[k].Name != name
    ensures r == -1 <==> forall k :: i <= k < |projects| ==> projects[k].Name != name
    decreases |projects| - i
  {
    if i == |projects| then -1
    else if projects[i].Name == name then i
    else ProjectIndexFrom(projects, name, i + 1)
  }

  /** The index of the first project with the given name, or -1. */
  function ProjectIndex(projects: seq<Project>, name: string): (r: int)
    ensures -1 <= r < |projects|
    ensures r >= 0 ==> projects[r].Name == name && forall k :: 0 <= k < r ==> projects[k].Name != name
    ensures r == -1 <==> name !in Names(projects)
  {
    var r := ProjectIndexFrom(projects, name, 0);
    assert r >= 0 ==> Names(projects)[r] == name;
    r
  }

  /** The index of the last config with the given ID, or -1: the entry that
      wins when the configs are loaded into an ID-keyed map. */
  function LastIndexOfID(configs: seq<PortForwardConfig>, id: string): (r: int)
    ensures -1 <= r < |configs|
    ensures r >= 0 ==> configs[r].ID == id && forall k :: r < k < |configs| ==> configs[k].ID != id
    ensures r == -1 <==> id !in IDs(configs)
  {
    if configs == [] then -1
    else if configs[|configs| - 1].ID == id then |configs| - 1
    else
      assert IDs(configs) == IDs(configs[..|configs| - 1]) + [configs[|configs| - 1].ID];
      LastIndexOfID(configs[..|configs| - 1], id)
  }

  /** The configs of a project's forwards, in the project's order, skipping
      IDs without a config. */
  function ProjectForwards(configs: seq<PortForwardConfig>, forwards: seq<string>): seq<PortForwardConfig> {
    if forwards == [] then []
    else
      var rest := ProjectForwards(configs, forwards[..|forwards| - 1]);
      var k := LastIndexOfID(configs, forwards[|forwards| - 1]);
      if k >= 0 then rest + [configs[k]] else rest
  }

  /** The IDs of a project's configs are exactly its forwards that exist, in order. */
  lemma {:induction false} ProjectForwardsIDs(configs: seq<PortForwardConfig>, forwards: seq<string>)
    ensures IDs(ProjectForwards(configs, forwards)) == KeepKnown(forwards, set k | 0 <= k < |configs| :: configs[k].ID)
  {
    var known := set k | 0 <= k < |configs| :: configs[k].ID;
    if forwards != [] {
      var init := forwards[..|forwards| - 1];
      var last := forwards[|forwards| - 1];
      ProjectForwardsIDs(configs, init);
      var k := LastIndexOfID(configs, last);
      assert last in known <==> k >= 0 by {
        if last in known {
          var j :| 0 <= j < |configs| && configs[j].ID == last;
          assert IDs(configs)[j] == last;
        }
      }
      var rest := ProjectForwards(configs, init);
      if k >= 0 {
        assert IDs(rest + [configs[k]]) == IDs(rest) + [configs[k].ID] by {
          assert (rest + [configs[k]])[..|rest|] == rest;
        }
      }
    }
  }

  /** Every config a project resolves to is one of the store's configs. */
  lemma {:induction false} ProjectForwardsFromStore(configs: seq<PortForwardConfig>, forwards: seq<string>)
    ensures |ProjectForwards(configs, forwards)| <= |forwards|
    ensures forall c :: c in ProjectForwards(configs, forwards) ==> c in configs
  {
    if forwards != [] {
      ProjectForwardsFromStore(configs, forwards[..|forwards| - 1]);
    }
  }

  /** The project list with the ID dropped from every project's Forwards. */
  function WithoutEverywhere(projects: seq<Project>, id: string): (r: seq<Project>)
    ensures |r| == |projects|
    ensures forall i :: 0 <= i < |r| ==> r[i] == Project(projects[i].Name, Without(projects[i].Forwards, id))
  {
    if projects == [] then []
    else WithoutEverywhere(projects[..|projects| - 1], id)
         + [Project(projects[|projects| - 1].Name, Without(projects[|projects| - 1].Forwards, id))]
  }

  /** The projects whose Forwards are not empty, in order. */
  function NonEmptyProjects(projects: seq<Project>): (r: seq<Project>)
    ensures |r| <= |projects|
    ensures forall p :: p in r ==> p in projects && p.Forwards != []
  {
    if projects == [] then []
    else if projects[|projects| - 1].Forwards != [] then NonEmptyProjects(projects[..|projects| - 1]) + [projects[|projects| - 1]]
    else NonEmptyProjects(projects[..|projects| - 1])
  }

  /** CleanupEmptyProjects keeps every non-empty project with its multiplicity
      and drops every empty one. */
  lemma {:induction false} NonEmptyProjectsCounts(projects: seq<Project>, p: Project)
    ensures multiset(NonEmptyProjects(projects))[p] == if p.Forwards != [] then multiset(projects)[p] else 0
  {
    if projects != [] {
      var init, last := projects[..|projects| - 1], projects[|projects| - 1];
      NonEmptyProjectsCounts(init, p);
      assert projects == init + [last];
      assert multiset(projects)[p] == multiset(init)[p] + (if last == p then 1 else 0);
      if last.Forwards != [] {
        assert NonEmptyProjects(projects) == NonEmptyProjects(init) + [last];
      } else {
        assert NonEmptyProjects(projects) == NonEmptyProjects(init);
      }
    }
  }

  /** Whether an empty project with this name is in the list. */
  predicate HasEmptyNamed(projects: seq<Project>, name: string) {
    projects != []
    && (HasEmptyNamed(projects[..|projects| - 1], name)
        || (projects[|projects| - 1].Forwards == [] && projects[|projects| - 1].Name == name))
  }

  /** The set of config IDs. */
  function IDSet(configs: seq<PortForwardConfig>): (r: set<string>)
    ensures forall id :: id in r <==> id in IDs(configs)
  {
    set id | id in IDs(configs)
  }

  /** The issues ValidateProjectIntegrity reports for one project's forwards. */
  function InvalidForwardIssues(forwards: seq<string>, valid: set<string>, project: string): (r: seq<Issue>)
    ensures |r| + |KeepKnown(forwards, valid)| == |forwards|
  {
    if forwards == [] then []
    else if forwards[|forwards| - 1] in valid then InvalidForwardIssues(forwards[..|forwards| - 1], valid, project)
    else InvalidForwardIssues(forwards[..|forwards| - 1], valid, project) + [RemovedInvalid(forwards[|forwards| - 1], project)]
  }

  /** The issues for a prefix of the project list, project by project. */
  function IntegrityIssues(projects: seq<Project>, valid: set<string>): seq<Issue> {
    if projects == [] then []
    else IntegrityIssues(projects[..|projects| - 1], valid)
         + InvalidForwardIssues(projects[|projects| - 1].Forwards, valid, projects[|projects| - 1].Name)
  }

  /** The project list with every forward that names no config removed. */
  function KeepKnownEverywhere(projects: seq<Project>, valid: set<string>): (r: seq<Project>)
    ensures |r| == |projects|
    ensures forall i :: 0 <= i < |r| ==> r[i] == Project(projects[i].Name, KeepKnown(projects[i].Forwards, valid))
  {
    if projects == [] then []
    else KeepKnownEverywhere(projects[..|projects| - 1], valid)
         + [Project(projects[|projects| - 1].Name, KeepKnown(projects[|projects| - 1].Forwards, valid))]
  }

  /** The configs a successful load installs, or None when loading fails. */
  function Loaded(src: LoadSource, configs: seq<PortForwardConfig>, projects: seq<Project>)
    : Option<(seq<PortForwardConfig>, seq<Project>)>
  {
    match src
    case FileMissing(dirError) => if dirError.Some? then None else Some(([], projects))
    case StatError(_) => None
    case ReadError(_) => None
    case ParseError(_) => None
    case Parsed(pf, legacy, ps) =>
      var cs := if |pf| == 0 && |legacy| > 0 then legacy else pf;
      if ConfigValid(cs, ps) then Some((cs, ps)) else None
  }

  /** The first index with an empty ID, or -1. */
  method FindMissingID(configs: seq<PortForwardConfig>) returns (idx: int)
    ensures -1 <= idx < |configs|
    ensures idx >= 0 ==> configs[idx].ID == "" && forall k :: 0 <= k < idx ==> configs[k].ID != ""
    ensures idx == -1 ==> forall k :: 0 <= k < |configs| ==> configs[k].ID != ""
  {
    var i := 0;
    while i < |configs|
      invariant 0 <= i <= |configs|
      invariant forall k :: 0 <= k < i ==> configs[k].ID != ""
    {
      if configs[i].ID == "" {
        return i;
      }
      i := i + 1;
    }
    return -1;
  }

  /** The first ID of ids that names no config, or None. */
  method FirstUnknownID(configs: seq<PortForwardConfig>, ids: seq<string>) returns (r: Option<string>)
    ensures r == None <==> forall k :: 0 <= k < |ids| ==> ids[k] in IDs(configs)
    ensures r.Some? ==> r.value in ids && r.value !in IDs(configs)
  {
    var i := 0;
    while i < |ids|
      invariant 0 <= i <= |ids|
      invariant forall k :: 0 <= k < i ==> ids[k] in IDs(configs)
    {
      var found := false;
      var j := 0;
      while j < |configs|
        invariant 0 <= j <= |configs|
        invariant !found ==> forall k :: 0 <= k < j ==> configs[k].ID != ids[i]
        invariant found ==> ids[i] in IDs(configs)
      {
        if configs[j].ID == ids[i] {
          assert IDs(configs)[j] == ids[i];
          found := true;
          break;
        }
        j := j + 1;
      }
      if !found {
        return Some(ids[i]);
      }
      i := i + 1;
    }
    return None;
  }

  /** The loop that looks a project up by name. */
  method FindProject(projects: seq<Project>, name: string) returns (idx: int)
    ensures idx == ProjectIndex(projects, name)
  {
    var i := 0;
    while i < |projects|
      invariant 0 <= i <= |projects|
      invariant forall k :: 0 <= k < i ==> projects[k].Name != name
    {
      if projects[i].Name == name {
        return i;
      }
      i := i + 1;
    }
    return -1;
  }

  /** Config i is the first one validateConfig rejects, with error e: the
      configs before it pass, and its ID is empty, untrimmed or seen before,
      checked in that order. */
  predicate FirstIDFault(configs: seq<PortForwardConfig>, i: int, e: StoreError) {
    0 <= i < |configs| && IDsValid(configs[..i])
    && var id := configs[i].ID;
       if id == "" then e == EmptyID(i)
       else if TrimSpace(id) != id then e == UntrimmedID(id)
       else (exists a :: 0 <= a < i && configs[a].ID == id) && e == DuplicateID(id)
  }

  /** Project j is the first one validateConfig rejects, with error e: the
      projects before it pass, and its name is empty, untrimmed or seen
      before, or else the first of its forwards outside known is reported. */
  predicate FirstProjectFault(projects: seq<Project>, known: set<string>, j: int, e: StoreError) {
    0 <= j < |projects| && ProjectsValid(projects[..j], known)
    && var p := projects[j];
       if p.Name == "" then e == EmptyProjectName(j)
       else if TrimSpace(p.Name) != p.Name then e == UntrimmedProjectName(p.Name)
       else if exists a :: 0 <= a < j && projects[a].Name == p.Name then e == DuplicateProjectName(p.Name)
       else e.UnknownForwardRef? && e.project == p.Name
            && exists f :: 0 <= f < |p.Forwards| && p.Forwards[f] == e.id && e.id !in known
                           && ForwardsKnown(p.Forwards[..f], known)
  }

  /** The ID half of validateConfig: every ID non-empty, trimmed and seen
      once; on success also the set of IDs the loop collected. */
  method CheckIDs(configs: seq<PortForwardConfig>) returns (err: Option<StoreError>, idMap: set<string>)
    ensures err == None <==> IDsValid(configs)
    ensures err == None ==> idMap == IDSet(configs)
    ensures err.Some? ==> exists i :: FirstIDFault(configs, i, err.value)
    ensures err.Some? ==> err.value.EmptyID? || err.value.UntrimmedID? || err.value.DuplicateID?
    ensures err.Some? && err.value.EmptyID? ==> 0 <= err.value.index < |configs| && configs[err.value.index].ID == ""
    ensures err.Some? && err.value.DuplicateID? ==>
      exists a, b :: 0 <= a < b < |configs| && configs[a].ID == err.value.id && configs[b].ID == err.value.id
  {
    idMap := {};
    var i := 0;
    while i < |configs|
      invariant 0 <= i <= |configs|
      invariant idMap == set k | 0 <= k < i :: configs[k].ID
      invariant forall k :: 0 <= k < i ==> WellFormedName(configs[k].ID)
      invariant forall a, b :: 0 <= a < b < i ==> configs[a].ID != configs[b].ID
    {
      var id := configs[i].ID;
      assert IDsValid(configs[..i]);
      if id == "" {
        assert FirstIDFault(configs, i, EmptyID(i));
        return Some(EmptyID(i)), idMap;
      }
      TrimSpaceIdentity(id);
      if TrimSpace(id) != id {
        assert FirstIDFault(configs, i, UntrimmedID(id));
        return Some(UntrimmedID(id)), idMap;
      }
      if id in idMap {
        var a :| 0 <= a < i && configs[a].ID == id;
        assert FirstIDFault(configs, i, DuplicateID(id));
        return Some(DuplicateID(id)), idMap;
      }
      idMap := idMap + {id};
      i := i + 1;
    }
    forall x ensures x in idMap <==> x in IDs(configs) {
      if x in IDs(configs) {
        var k :| 0 <= k < |configs| && IDs(configs)[k] == x;
      }
    }
    return None, idMap;
  }

  /** The first element of ids that is not in known, or None. */
  method FirstOutside(ids: seq<string>, known: set<string>) returns (r: Option<string>)
    ensures r == None <==> ForwardsKnown(ids, known)
    ensures r.Some? ==> r.value in ids && r.value !in known
    ensures r.Some? ==> exists f :: 0 <= f < |ids| && ids[f] == r.value && ForwardsKnown(ids[..f], known)
  {
    var f := 0;
    while f < |ids|
      invariant 0 <= f <= |ids|
      invariant forall k :: 0 <= k < f ==> ids[k] in known
    {
      if ids[f] !in known {
        assert ForwardsKnown(ids[..f], known);
        return Some(ids[f]);
      }
      f := f + 1;
    }
    return None;
  }

  /** The project half of validateConfig, against the collected IDs. */
  method CheckProjects(projects: seq<Project>, known: set<string>) returns (err: Option<StoreError>)
    ensures err == None <==> ProjectsValid(projects, known)
    ensures err.Some? ==> err.value.EmptyProjectName? || err.value.UntrimmedProjectName?
                          || err.value.DuplicateProjectName? || err.value.UnknownForwardRef?
    ensures err.Some? && err.value.UnknownForwardRef? ==> err.value.id !in known
    ensures err.Some? ==> exists j :: FirstProjectFault(projects, known, j, err.value)
  {
    var projectMap: set<string> := {};
    var j := 0;
    while j < |projects|
      invariant 0 <= j <= |projects|
      invariant projectMap == set k | 0 <= k < j :: projects[k].Name
      invariant forall k :: 0 <= k < j ==> WellFormedName(projects[k].Name)
      invariant forall a, b :: 0 <= a < b < j ==> projects[a].Name != projects[b].Name
      invariant forall a :: 0 <= a < j ==> ForwardsKnown(projects[a].Forwards, known)
    {
      var project := projects[j];
      assert ProjectsValid(projects[..j], known);
      if project.Name == "" {
        assert FirstProjectFault(projects, known, j, EmptyProjectName(j));
        return Some(EmptyProjectName(j));
      }
      TrimSpaceIdentity(project.Name);
      if TrimSpace(project.Name) != project.Name {
        assert FirstProjectFault(projects, known, j, UntrimmedProjectName(project.Name));
        return Some(UntrimmedProjectName(project.Name));
      }
      if project.Name in projectMap {
        var a :| 0 <= a < j && projects[a].Name == project.Name;
        assert FirstProjectFault(projects, known, j, DuplicateProjectName(project.Name));
        return Some(DuplicateProjectName(project.Name));
      }
      projectMap := projectMap + {project.Name};
      var unknown := FirstOutside(project.Forwards, known);
      if unknown.Some? {
        assert FirstProjectFault(projects, known, j, UnknownForwardRef(project.Name, unknown.value));
        return Some(UnknownForwardRef(project.Name, unknown.value));
      }
      j := j + 1;
    }
    return None;
  }

  /** One project's forwards without the removed ID: the inner loop of
      RemovePortForwardFromProjects. */
  method FilterOut(forwards: seq<string>, id: string) returns (kept: seq<string>)
    ensures kept == Without(forwards, id)
  {
    kept := [];
    var k := 0;
    while k < |forwards|
      invariant 0 <= k <= |forwards|
      invariant kept == Without(forwards[..k], id)
    {
      assert forwards[..k + 1][..k] == forwards[..k];
      if forwards[k] != id {
        kept := kept + [forwards[k]];
      }
      k := k + 1;
    }
    assert forwards[..|forwards|] == forwards;
  }

  /** One project's forwards that name a config, and an issue for each one
      that does not: the inner loop of ValidateProjectIntegrity. */
  method FilterKnown(forwards: seq<string>, valid: set<string>, project: string)
    returns (kept: seq<string>, issues: seq<Issue>)
    ensures kept == KeepKnown(forwards, valid)
    ensures issues == InvalidForwardIssues(forwards, valid, project)
  {
    kept := [];
    issues := [];
    var k := 0;
    while k < |forwards|
      invariant 0 <= k <= |forwards|
      invariant kept == KeepKnown(forwards[..k], valid)
      invariant issues == InvalidForwardIssues(forwards[..k], valid, project)
    {
      assert forwards[..k + 1][..k] == forwards[..k];
      if forwards[k] in valid {
        kept := kept + [forwards[k]];
      } else {
        issues := issues + [RemovedInvalid(forwards[k], project)];
      }
      k := k + 1;
    }
    assert forwards[..|forwards|] == forwards;
  }

  /** Every project with its unknown forwards removed, and the issues for
      them: the project loop of ValidateProjectIntegrity. */
  method FilterProjects(projects: seq<Project>, valid: set<string>) returns (cleaned: seq<Project>, issues: seq<Issue>)
    ensures cleaned == KeepKnownEverywhere(projects, valid)
    ensures issues == IntegrityIssues(projects, valid)
  {
    cleaned := [];
    issues := [];
    var i := 0;
    while i < |projects|
      invariant 0 <= i <= |projects|
      invariant cleaned == KeepKnownEverywhere(projects[..i], valid)
      invariant issues == IntegrityIssues(projects[..i], valid)
    {
      assert projects[..i + 1][..i] == projects[..i] && projects[..i + 1][i] == projects[i];
      var kept, projectIssues := FilterKnown(projects[i].Forwards, valid, projects[i].Name);
      cleaned := cleaned + [Project(projects[i].Name, kept)];
      issues := issues + projectIssues;
      i := i + 1;
    }
    assert projects[..|projects|] == projects;
  }

  /** The set of config IDs, built by a loop. */
  method CollectIDs(configs: seq<PortForwardConfig>) returns (ids: set<string>)
    ensures ids == IDSet(configs)
  {
    ids := {};
    var c := 0;
    while c < |configs|
      invariant 0 <= c <= |configs|
      invariant ids == set k | 0 <= k < c :: configs[k].ID
    {
      ids := ids + {configs[c].ID};
      c := c + 1;
    }
    forall x ensures x in ids <==> x in IDs(configs) {
      if x in IDs(configs) {
        var k :| 0 <= k < |configs| && IDs(configs)[k] == x;
      }
    }
  }

  /** The project loop of RemovePortForwardFromProjects: each project whose
      Forwards hold the ID is replaced by one without it; the others stay. */
  method StripFromProjects(projects0: seq<Project>, id: string) returns (projects: seq<Project>)
    ensures projects == WithoutEverywhere(projects0, id)
  {
    projects := projects0;
    var i := 0;
    while i < |projects|
      invariant 0 <= i <= |projects| && |projects| == |projects0|
      invariant projects[..i] == WithoutEverywhere(projects0[..i], id)
      invariant forall k :: i <= k < |projects| ==> projects[k] == projects0[k]
    {
      var forwards := projects[i].Forwards;
      var newForwards := FilterOut(forwards, id);
      WithoutIdentity(forwards, id);
      if |newForwards| != |forwards| {
        projects := projects[i := Project(projects[i].Name, newForwards)];
      }
      assert projects0[..i + 1] == projects0[..i] + [projects0[i]];
      assert projects[..i + 1] == projects[..i] + [projects[i]];
      i := i + 1;
    }
    assert projects0[..|projects|] == projects0;
    assert projects[..|projects|] == projects;
  }

  /** The loop of CleanupEmptyProjects: the projects with forwards, how many
      were dropped, and the active project, cleared when an empty project
      of its name is dropped. */
  method DropEmptyProjects(projects: seq<Project>, active: Option<Project>)
    returns (kept: seq<Project>, removed: int, activeAfter: Option<Project>)
    ensures kept == NonEmptyProjects(projects)
    ensures removed == |projects| - |kept|
    ensures activeAfter == (if active.Some? && HasEmptyNamed(projects, active.value.Name) then None else active)
  {
    kept, removed, activeAfter := [], 0, active;
    var i := 0;
    while i < |projects|
      invariant 0 <= i <= |projects|
      invariant kept == NonEmptyProjects(projects[..i])
      invariant removed == i - |kept|
      invariant activeAfter == (if active.Some? && HasEmptyNamed(projects[..i], active.value.Name) then None else active)
    {
      assert projects[..i + 1][..i] == projects[..i] && projects[..i + 1][i] == projects[i];
      var project := projects[i];
      if |project.Forwards| > 0 {
        kept := kept + [project];
      } else {
        removed := removed + 1;
        if activeAfter.Some? && activeAfter.value.Name == project.Name {
          activeAfter := None;
        }
      }
      i := i + 1;
    }
    assert projects[..|projects|] == projects;
  }

  /** Every ID of configs maps to its last config, and nothing else is mapped. */
  ghost predicate MapsLastConfig(idToConfig: map<string, PortForwardConfig>, configs: seq<PortForwardConfig>) {
    (forall x :: x in idToConfig <==> LastIndexOfID(configs, x) >= 0)
    && forall x :: x in idToConfig ==> idToConfig[x] == configs[LastIndexOfID(configs, x)]
  }

  /** The first loop of GetActiveProjectForwards: the ID-to-config map,
      where a later config overwrites an earlier one with the same ID. */
  method LastConfigByID(configs: seq<PortForwardConfig>) returns (idToConfig: map<string, PortForwardConfig>)
    ensures MapsLastConfig(idToConfig, configs)
  {
    idToConfig := map[];
    var i := 0;
    while i < |configs|
      invariant 0 <= i <= |configs|
      invariant MapsLastConfig(idToConfig, configs[..i])
    {
      assert configs[..i + 1][..i] == configs[..i];
      idToConfig := idToConfig[configs[i].ID := configs[i]];
      i := i + 1;
    }
    assert configs[..|configs|] == configs;
  }

  /** The second loop of GetActiveProjectForwards: each forward's config
      from the map, in the project's order, skipping unknown IDs. */
  method ConfigsOfForwards(idToConfig: map<string, PortForwardConfig>, configs: seq<PortForwardConfig>, forwards: seq<string>)
    returns (active: seq<PortForwardConfig>)
    requires MapsLastConfig(idToConfig, configs)
    ensures active == ProjectForwards(configs, forwards)
  {
    active := [];
    var j := 0;
    while j < |forwards|
      invariant 0 <= j <= |forwards|
      invariant active == ProjectForwards(configs, forwards[..j])
    {
      assert forwards[..j + 1][..j] == forwards[..j];
      if forwards[j] in idToConfig {
        active := active + [idToConfig[forwards[j]]];
      }
      j := j + 1;
    }
    assert forwards[..|forwards|] == forwards;
  }

  class ConfigStore {
    var configs: seq<PortForwardConfig>
    /** The lists before the last reload; None is Go's nil slice. */
    var previousConfigs: Option<seq<PortForwardConfig>>
    var previousProjects: Option<seq<Project>>
    var projects: seq<Project>
    /** A copy of the project selected last, or None. */
    var activeProject: Option<Project>

    constructor (configs: seq<PortForwardConfig>, projects: seq<Project>)
      ensures this.configs == configs && this.projects == projects
      ensures previousConfigs == None && previousProjects == None && activeProject == None
    {
      this.configs := configs;
      this.projects := projects;
      previousConfigs := None;
      previousProjects := None;
      activeProject := None;
    }

    /** Get: the config at an index, if the index is in range. */
    function Get(index: int): (r: Option<PortForwardConfig>)
      reads this
      ensures r.Some? <==> 0 <= index < |configs|
      ensures r.Some? ==> r.value == configs[index]
    {
      if index < 0 || index >= |configs| then None else Some(configs[index])
    }

    /** GetWithError: like Get, with ErrConfigNotFound when out of range. */
    function GetWithError(index: int): (r: Result<PortForwardConfig, StoreError>)
      reads this
      ensures r.Err? <==> index < 0 || index >= |configs|
      ensures r.Err? ==> r.error == ConfigNotFound(index, |configs|)
      ensures r.Ok? ==> r.value == configs[index] && Get(index) == Some(r.value)
    {
      if index < 0 || index >= |configs| then Err(ConfigNotFound(index, |configs|)) else Ok(configs[index])
    }

    /** GetIndexByID: the first index with the ID, or (-1, false). */
    method GetIndexByID(id: string) returns (index: int, found: bool)
      ensures found <==> id in IDs(configs)
      ensures found ==> 0 <= index < |configs| && configs[index].ID == id
      ensures found ==> forall k :: 0 <= k < index ==> configs[k].ID != id
      ensures !found ==> index == -1
    {
      var i := 0;
      while i < |configs|
        invariant 0 <= i <= |configs|
        invariant forall k :: 0 <= k < i ==> configs[k].ID != id
      {
        if configs[i].ID == id {
          assert IDs(configs)[i] == id;
          return i, true;
        }
        i := i + 1;
      }
      return -1, false;
    }

    /** validateConfig: the ID checks, then the project checks; None exactly
        when the configuration is valid. */
    method ValidateConfig() returns (err: Option<StoreError>)
      ensures err == None <==> ConfigValid(configs, projects)
      ensures err.Some? && err.value.EmptyID? ==> 0 <= err.value.index < |configs| && configs[err.value.index].ID == ""
      ensures err.Some? && err.value.DuplicateID? ==>
        exists a, b :: 0 <= a < b < |configs| && configs[a].ID == err.value.id && configs[b].ID == err.value.id
      ensures err.Some? && err.value.UnknownForwardRef? ==> err.value.id !in IDs(configs)
    {
      var idErr, idMap := CheckIDs(configs);
      if idErr.Some? {
        return idErr;
      }
      err := CheckProjects(projects, idMap);
    }

    /** loadFromDisk: install what the file holds; a parsed file is installed
        before its IDs are checked, so a rejected file stays installed. */
    method LoadFromDisk(src: LoadSource) returns (err: Option<StoreError>)
      modifies this`configs, this`projects
      ensures err == None <==> Loaded(src, old(configs), old(projects)).Some?
      ensures err == None ==> (configs, projects) == Loaded(src, old(configs), old(projects)).value
      ensures !src.Parsed? && err.Some? ==> configs == old(configs) && projects == old(projects)
      // the error of each kind of source that is not a parsed file
      ensures src.FileMissing? && src.dirError.Some? ==> err == Some(DirPrepareFailed(src.dirError.value))
      ensures src.StatError? ==> err == Some(StatFailed(src.reason))
      ensures src.ReadError? ==> err == Some(ReadFailed(src.reason))
      ensures src.ParseError? ==> err == Some(ParseFailed(src.reason))
      // a parsed file is installed whatever the checks say
      ensures src.Parsed? ==>
        configs == (if |src.portForwards| == 0 && |src.legacyPortForwards| > 0 then src.legacyPortForwards else src.portForwards)
        && projects == src.projects
      // the first config without an ID asks for migration; otherwise a
      // rejection is a validation failure
      ensures src.Parsed? && (exists k :: 0 <= k < |configs| && configs[k].ID == "") ==>
        err.Some? && err.value.MigrationRequired?
        && 0 <= err.value.index < |configs| && configs[err.value.index].ID == ""
        && forall k :: 0 <= k < err.value.index ==> configs[k].ID != ""
      ensures src.Parsed? && (forall k :: 0 <= k < |configs| ==> configs[k].ID != "") && err.Some? ==>
        err.value.ValidationFailed? && !ConfigValid(configs, projects)
    {
      match src {
        case FileMissing(dirError) =>
          if dirError.Some? {
            return Some(DirPrepareFailed(dirError.value));
          }
          configs := [];
          return None;
        case StatError(reason) =>
          return Some(StatFailed(reason));
        case ReadError(reason) =>
          return Some(ReadFailed(reason));
        case ParseError(reason) =>
          return Some(ParseFailed(reason));
        case Parsed(pf, legacy, ps) =>
          if |pf| == 0 && |legacy| > 0 {
            configs := legacy;
          } else {
            configs := pf;
          }
          projects := ps;
          var missing := FindMissingID(configs);
          if missing >= 0 {
            return Some(MigrationRequired(missing));
          }
          var v := ValidateConfig();
          if v.Some? {
            return Some(ValidationFailed(v.value));
          }
          return None;
      }
    }

    /** Reload: re-read the file; on failure put the previous lists back; on
        success keep the active project only if a project of that name is
        still there. */
    method Reload(src: LoadSource) returns (err: Option<StoreError>)
      modifies this
      ensures Loaded(src, old(configs), old(projects)).None? ==>
        err.Some? && err.value.ReloadFailed?
        && configs == old(configs) && projects == old(projects)
        && previousConfigs == None && previousProjects == None
        && activeProject == old(activeProject)
      ensures Loaded(src, old(configs), old(projects)).Some? ==>
        err == None
        && (configs, projects) == Loaded(src, old(configs), old(projects)).value
        && previousConfigs == Some(old(configs)) && previousProjects == Some(old(projects))
        && activeProject == (
          if old(activeProject).None? || old(activeProject).value.Name == "" then old(activeProject)
          else if old(activeProject).value.Name in Names(projects)
          then Some(projects[ProjectIndex(projects, old(activeProject).value.Name)])
          else None)
    {
      previousConfigs := Some(configs);
      previousProjects := Some(projects);
      var activeName := "";
      if activeProject.Some? {
        activeName := activeProject.value.Name;
      }
      var e := LoadFromDisk(src);
      if e.Some? {
        configs := previousConfigs.value;
        projects := previousProjects.value;
        previousConfigs := None;
        previousProjects := None;
        return Some(ReloadFailed(e.value));
      }
      if activeName != "" {
        var ok := SetActiveProjectUnsafe(activeName);
        if !ok {
          activeProject := None;
        }
      }
      return None;
    }

    /** setActiveProjectUnsafe: select the first project with the name. */
    method SetActiveProjectUnsafe(name: string) returns (ok: bool)
      modifies this`activeProject
      ensures ok <==> name in Names(projects)
      ensures ok ==> activeProject == Some(projects[ProjectIndex(projects, name)])
      ensures !ok ==> activeProject == old(activeProject)
    {
      var idx := FindProject(projects, name);
      if idx >= 0 {
        activeProject := Some(projects[idx]);
        return true;
      }
      return false;
    }

    /** SetActiveProject: "" clears the selection; a known name selects a copy
        of that project; an unknown name is an error and changes nothing. */
    method SetActiveProject(name: string) returns (err: Option<StoreError>)
      modifies this`activeProject
      ensures name == "" ==> err == None && activeProject == None
      ensures name != "" && name in Names(projects) ==>
        err == None && activeProject == Some(projects[ProjectIndex(projects, name)])
        && activeProject.value.Name == name
      ensures name != "" && name !in Names(projects) ==>
        err == Some(ProjectNotFound(name)) && activeProject == old(activeProject)
    {
      if name == "" {
        activeProject := None;
        return None;
      }
      var idx := FindProject(projects, name);
      if idx >= 0 {
        activeProject := Some(projects[idx]);
        return None;
      }
      return Some(ProjectNotFound(name));
    }

    method ClearActiveProject()
      modifies this`activeProject
      ensures activeProject == None
    {
      activeProject := None;
    }

    /** GetActiveProjectName: the active project's name, "" when none. */
    function GetActiveProjectName(): (r: string)
      reads this
      ensures activeProject.None? ==> r == ""
    {
      if activeProject.None? then "" else activeProject.value.Name
    }

    /** GetActiveProjectForwards: all configs when no project is active;
        otherwise the configs of the active project's forwards, in its order,
        skipping unknown IDs (the last config wins when IDs repeat). */
    method GetActiveProjectForwards() returns (r: seq<PortForwardConfig>)
      ensures activeProject.None? ==> r == configs
      ensures activeProject.Some? ==> r == ProjectForwards(configs, activeProject.value.Forwards)
    {
      if activeProject.None? {
        return configs;
      }
      var idToConfig := LastConfigByID(configs);
      r := ConfigsOfForwards(idToConfig, configs, activeProject.value.Forwards);
    }

    /** CreateProject: trim the name, refuse an empty or taken name and any
        unknown forward ID; otherwise append the project at the end. */
    method CreateProject(name: string, ids: seq<string>) returns (err: Option<StoreError>)
      modifies this`projects
      ensures TrimSpace(name) == "" ==> err == Some(ProjectNameEmpty) && projects == old(projects)
      ensures TrimSpace(name) != "" && TrimSpace(name) in Names(old(projects)) ==>
        err == Some(ProjectExists(TrimSpace(name))) && projects == old(projects)
      ensures err.Some? ==> projects == old(projects)
      ensures err.Some? && err.value.ForwardIDMissing? ==> err.value.id in ids && err.value.id !in IDs(configs)
      ensures err == None <==>
        TrimSpace(name) != "" && TrimSpace(name) !in Names(old(projects))
        && forall k :: 0 <= k < |ids| ==> ids[k] in IDs(configs)
      ensures err == None ==> projects == old(projects) + [Project(TrimSpace(name), ids)]
    {
      var trimmed := TrimSpace(name);
      if trimmed == "" {
        return Some(ProjectNameEmpty);
      }
      var idx := FindProject(projects, trimmed);
      if idx >= 0 {
        return Some(ProjectExists(trimmed));
      }
      var unknown := FirstUnknownID(configs, ids);
      if unknown.Some? {
        return Some(ForwardIDMissing(unknown.value));
      }
      projects := projects + [Project(trimmed, ids)];
      return None;
    }

    /** UpdateProject: replace the Forwards of the first project with the
        name (not trimmed), refusing a missing project or an unknown ID. The
        active project copy is not touched. */
    method UpdateProject(name: string, ids: seq<string>) returns (err: Option<StoreError>)
      modifies this`projects
      ensures name !in Names(old(projects)) ==> err == Some(ProjectMissing(name)) && projects == old(projects)
      ensures err.Some? ==> projects == old(projects)
      ensures err == None <==> name in Names(old(projects)) && forall k :: 0 <= k < |ids| ==> ids[k] in IDs(configs)
      ensures err == None ==> projects == old(projects)[ProjectIndex(old(projects), name) := Project(name, ids)]
    {
      var idx := FindProject(projects, name);
      if idx == -1 {
        return Some(ProjectMissing(name));
      }
      var unknown := FirstUnknownID(configs, ids);
      if unknown.Some? {
        return Some(ForwardIDMissing(unknown.value));
      }
      projects := projects[idx := Project(projects[idx].Name, ids)];
      return None;
    }

    /** DeleteProject: remove the first project with the name, keep the rest
        in order, and clear the active project if it has that name. */
    method DeleteProject(name: string) returns (err: Option<StoreError>)
      modifies this`projects, this`activeProject
      ensures name !in Names(old(projects)) ==>
        err == Some(ProjectMissing(name)) && projects == old(projects) && activeProject == old(activeProject)
      ensures name in Names(old(projects)) ==>
        err == None
        && projects == old(projects)[..ProjectIndex(old(projects), name)] + old(projects)[ProjectIndex(old(projects), name) + 1..]
        && activeProject == (if old(activeProject).Some? && old(activeProject).value.Name == name then None else old(activeProject))
    {
      var idx := FindProject(projects, name);
      if idx == -1 {
        return Some(ProjectMissing(name));
      }
      if activeProject.Some? && activeProject.value.Name == name {
        activeProject := None;
      }
      projects := projects[..idx] + projects[idx + 1..];
      return None;
    }

    /** RemovePortForwardFromProjects: drop the ID from every project (a
        project is reassigned only when it changed), then clear the active
        project if its copied Forwards list is empty. */
    method RemovePortForwardFromProjects(id: string)
      modifies this`projects, this`activeProject
      ensures projects == WithoutEverywhere(old(projects), id)
      ensures activeProject == (if old(activeProject).Some? && old(activeProject).value.Forwards == [] then None else old(activeProject))
    {
      projects := StripFromProjects(projects, id);
      if activeProject.Some? && |activeProject.value.Forwards| == 0 {
        activeProject := None;
      }
    }

    /** CleanupEmptyProjects: keep the projects that have forwards, return how
        many were dropped, and clear the active project if an empty project of
        its name was dropped. */
    method CleanupEmptyProjects() returns (removed: int)
      modifies this`projects, this`activeProject
      ensures projects == NonEmptyProjects(old(projects))
      ensures removed == |old(projects)| - |projects|
      ensures activeProject == (if old(activeProject).Some? && HasEmptyNamed(old(projects), old(activeProject).value.Name)
                                then None else old(activeProject))
    {
      projects, removed, activeProject := DropEmptyProjects(projects, activeProject);
    }

    /** ValidateProjectIntegrity: drop every project forward that names no
        config, reporting each; then clear the active project (a copy) if its
        own Forwards name an unknown config. */
    method ValidateProjectIntegrity() returns (issues: seq<Issue>)
      modifies this`projects, this`activeProject
      ensures projects == KeepKnownEverywhere(old(projects), IDSet(configs))
      ensures var cleared := old(activeProject).Some?
                && |KeepKnown(old(activeProject).value.Forwards, IDSet(configs))| != |old(activeProject).value.Forwards|;
        activeProject == (if cleared then None else old(activeProject))
        && issues == IntegrityIssues(old(projects), IDSet(configs))
                     + (if cleared then [ActiveCleared(old(activeProject).value.Name)] else [])
    {
      var validIDs := CollectIDs(configs);
      var cleaned;
      cleaned, issues := FilterProjects(projects, validIDs);
      projects := cleaned;
      if activeProject.Some? {
        var validActive, _ := FilterKnown(activeProject.value.Forwards, validIDs, activeProject.value.Name);
        if |validActive| != |activeProject.value.Forwards| {
          issues := issues + [ActiveCleared(activeProject.value.Name)];
          activeProject := None;
        }
      }
    }
  }

  /** After ValidateProjectIntegrity every forward names a config, and after
      RemovePortForwardFromProjects no project mentions the removed ID. */
  lemma KeepKnownEverywhereSound(projects: seq<Project>, configs: seq<PortForwardConfig>, i: int, k: int)
    requires 0 <= i < |projects|
    requires 0 <= k < |KeepKnownEverywhere(projects, IDSet(configs))[i].Forwards|
    ensures KeepKnownEverywhere(projects, IDSet(configs))[i].Forwards[k] in IDs(configs)
  {
    var f := KeepKnownEverywhere(projects, IDSet(configs))[i].Forwards;
    assert f[k] in f;
  }

  lemma WithoutEverywhereSound(projects: seq<Project>, id: string, i: int)
    requires 0 <= i < |projects|
    ensures id !in WithoutEverywhere(projects, id)[i].Forwards
    ensures WithoutEverywhere(projects, id)[i].Name == projects[i].Name
  {
  }
}
