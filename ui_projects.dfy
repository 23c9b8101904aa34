/** The project selector's handlers (pkg/ui/update_projects.go): stopping
    every running forward, starting the forwards of one project, and
    switching the active project. Starting a forward goes through the
    supervisor's Start, whose launcher verdict for config index i is
    launch(i); stopping goes through Stop, whose kill outcome is kill(h). */
module UIProjects {
  import opened Common
  import opened GoStrings
  import Store
  import PortForward
  import opened UITypes

  /** Why one forward of a project was not started. */
  datatype ForwardError =
    | IDNotFound(id: string)                              // no config has that ID
    | StartFailed(id: string, err: PortForward.Error)     // the supervisor refused or the launch failed

  /** The message startProjectPortForwards collects for an error. */
  function ForwardErrorText(e: ForwardError): string {
    match e
    case IDNotFound(id) => "Port forward ID '" + id + "' not found"
    case StartFailed(id, err) => "Failed to start '" + id + "': " + PortForward.ErrorText(err)
  }

  /** Some error was reported for this ID. */
  predicate Reported(errors: seq<ForwardError>, id: string) {
    exists j :: 0 <= j < |errors| && errors[j].id == id
  }

  /** The running entries whose index lies outside [0, n). */
  function RunningOutside(running: map<int, PortForward.RunningInfo>, n: int): (r: map<int, PortForward.RunningInfo>)
    ensures forall i :: i in r <==> i in running && !(0 <= i < n)
    ensures forall i :: i in r ==> r[i] == running[i]
  {
    map i | i in running && !(0 <= i < n) :: running[i]
  }

  /** How many of the running indices in [0, n) were killed without error. */
  function CleanStops(running: map<int, PortForward.RunningInfo>, kill: PortForward.Handle -> PortForward.KillResult, n: nat): (r: nat)
    ensures r <= n
  {
    if n == 0 then 0
    else CleanStops(running, kill, n - 1) + (if n - 1 in running && kill(running[n - 1].cmd).Killed? then 1 else 0)
  }

  /** stopAllRunningPortForwards: Stop every running index of the config
      list. Stop forgets the index even when the kill fails, so afterwards
      none of them runs; the count is of the clean kills only. */
  method StopAllRunningPortForwards(m: Model, kill: PortForward.Handle -> PortForward.KillResult) returns (stoppedCount: nat)
    requires m.portForwarder.Valid()
    modifies m.portForwarder
    ensures m.portForwarder.Valid()
    ensures m.portForwarder.running == RunningOutside(old(m.portForwarder.running), |m.configStore.configs|)
    ensures forall i :: 0 <= i < |m.configStore.configs| ==> !m.portForwarder.IsRunning(i)
    ensures stoppedCount == CleanStops(old(m.portForwarder.running), kill, |m.configStore.configs|)
  {
    var pf := m.portForwarder;
    var n := |m.configStore.configs|;
    stoppedCount := 0;
    var i := 0;
    while i < n
      invariant 0 <= i <= n
      invariant pf.Valid()
      invariant pf.running == RunningOutside(old(pf.running), i)
      invariant stoppedCount == CleanStops(old(pf.running), kill, i)
    {
      if pf.IsRunning(i) {
        var err := pf.Stop(i, kill);
        if err == None {
          stoppedCount := stoppedCount + 1;
        }
      }
      assert pf.running == RunningOutside(old(pf.running), i + 1);
      i := i + 1;
    }
  }

  /** Appending an error keeps every earlier report. */
  lemma ReportedGrows(errors: seq<ForwardError>, e: ForwardError, id: string)
    requires Reported(errors, id)
    ensures Reported(errors + [e], id)
  {
    var j :| 0 <= j < |errors| && errors[j].id == id;
    assert (errors + [e])[j].id == id;
  }

  /** One iteration of startProjectPortForwards' loop: look the ID up, count
      an index already running as started, else call Start. */
  method StartForward(m: Model, id: string, launch: int -> PortForward.LaunchResult)
    returns (started: bool, error: Option<ForwardError>)
    requires m.portForwarder.Valid()
    modifies m.portForwarder
    ensures m.portForwarder.Valid()
    ensures started <==> error == None
    ensures error.Some? ==> error.value.id == id
    ensures id !in IDs(m.configStore.configs) <==> error == Some(IDNotFound(id))
    ensures forall i :: i in old(m.portForwarder.running) ==>
      i in m.portForwarder.running && m.portForwarder.running[i] == old(m.portForwarder.running)[i]
    ensures forall i :: i in m.portForwarder.running && i !in old(m.portForwarder.running) ==>
      i == IndexOfID(m.configStore.configs, id) && i >= 0
    ensures id in IDs(m.configStore.configs) && started ==> IndexOfID(m.configStore.configs, id) in m.portForwarder.running
    // an index already running is counted without a Start call
    ensures id in IDs(m.configStore.configs) && IndexOfID(m.configStore.configs, id) in old(m.portForwarder.running) ==>
      started && m.portForwarder.running == old(m.portForwarder.running)
  {
    var pf := m.portForwarder;
    var index, found := m.configStore.GetIndexByID(id);
    if !found {
      return false, Some(IDNotFound(id));
    }
    assert index == IndexOfID(m.configStore.configs, id);
    if pf.IsRunning(index) {
      return true, None;
    }
    // GetWithError cannot fail on an index GetIndexByID found.
    var got := m.configStore.GetWithError(index);
    var err := pf.Start(index, got.value, launch(index));
    if err.Some? {
      return false, Some(StartFailed(id, err.value));
    }
    return true, None;
  }

  /** Each of the first i forwards with an unknown ID is reported as such. */
  predicate UnknownReported(configs: seq<PortForwardConfig>, forwards: seq<string>, i: int, errors: seq<ForwardError>)
    requires 0 <= i <= |forwards|
  {
    forall k :: 0 <= k < i && forwards[k] !in IDs(configs) ==> IDNotFound(forwards[k]) in errors
  }

  /** Each of the first i forwards with a known ID runs at the first index
      with that ID, or an error was reported for it. */
  predicate KnownHandled(configs: seq<PortForwardConfig>, forwards: seq<string>, i: int,
                         running: map<int, PortForward.RunningInfo>, errors: seq<ForwardError>)
    requires 0 <= i <= |forwards|
  {
    forall k :: 0 <= k < i && forwards[k] in IDs(configs) ==>
      IndexOfID(configs, forwards[k]) in running || Reported(errors, forwards[k])
  }

  /** Every one of the first i forwards is accounted for. */
  predicate Accounted(configs: seq<PortForwardConfig>, forwards: seq<string>, i: int,
                      running: map<int, PortForward.RunningInfo>, errors: seq<ForwardError>)
    requires 0 <= i <= |forwards|
  {
    UnknownReported(configs, forwards, i, errors) && KnownHandled(configs, forwards, i, running, errors)
  }

  /** Every error names a forward of the list, and an unknown-ID error an
      ID no config has. */
  predicate ErrorsSound(configs: seq<PortForwardConfig>, forwards: seq<string>, errors: seq<ForwardError>) {
    (forall e :: e in errors ==> e.id in forwards)
    && (forall e :: e in errors && e.IDNotFound? ==> e.id !in IDs(configs))
  }

  /** UnknownReported survives one more forward whose error, if any, was
      appended. */
  lemma UnknownReportedStep(configs: seq<PortForwardConfig>, forwards: seq<string>, i: int,
                            errors: seq<ForwardError>, errors': seq<ForwardError>)
    requires 0 <= i < |forwards|
    requires UnknownReported(configs, forwards, i, errors)
    requires |errors| <= |errors'| && errors'[..|errors|] == errors
    requires forwards[i] !in IDs(configs) ==> IDNotFound(forwards[i]) in errors'
    ensures UnknownReported(configs, forwards, i + 1, errors')
  {
    forall k | 0 <= k < i && forwards[k] !in IDs(configs)
      ensures IDNotFound(forwards[k]) in errors'
    {
      var j :| 0 <= j < |errors| && errors[j] == IDNotFound(forwards[k]);
      assert errors'[j] == errors[j];
    }
  }

  /** KnownHandled survives one more forward: the running map only grew,
      and the forward's error, if any, was appended. */
  lemma KnownHandledStep(configs: seq<PortForwardConfig>, forwards: seq<string>, i: int,
                         running: map<int, PortForward.RunningInfo>, running': map<int, PortForward.RunningInfo>,
                         errors: seq<ForwardError>, errors': seq<ForwardError>)
    requires 0 <= i < |forwards|
    requires KnownHandled(configs, forwards, i, running, errors)
    requires forall j :: j in running ==> j in running'
    requires |errors| <= |errors'| && errors'[..|errors|] == errors
    requires forwards[i] in IDs(configs) ==> IndexOfID(configs, forwards[i]) in running' || Reported(errors', forwards[i])
    ensures KnownHandled(configs, forwards, i + 1, running', errors')
  {
    forall k | 0 <= k < i && forwards[k] in IDs(configs) && IndexOfID(configs, forwards[k]) !in running'
      ensures Reported(errors', forwards[k])
    {
      var j :| 0 <= j < |errors| && errors[j].id == forwards[k];
      assert errors'[j] == errors[j];
    }
  }

  /** startProjectPortForwards: for each forward ID of the project, in
      order, look up its first config index; an unknown ID is reported, an
      index already running counts as started without a Start call, and
      otherwise Start is called and either counts or is reported. */
  method StartProjectPortForwards(m: Model, project: Project, launch: int -> PortForward.LaunchResult)
    returns (startedCount: nat, errors: seq<ForwardError>)
    requires m.portForwarder.Valid()
    modifies m.portForwarder
    ensures m.portForwarder.Valid()
    ensures startedCount + |errors| == |project.Forwards|
    // nothing that ran before is stopped or replaced
    ensures forall i :: i in old(m.portForwarder.running) ==>
      i in m.portForwarder.running && m.portForwarder.running[i] == old(m.portForwarder.running)[i]
    // what runs now and did not before belongs to the project
    ensures forall i :: i in m.portForwarder.running && i !in old(m.portForwarder.running) ==>
      0 <= i < |m.configStore.configs| && m.configStore.configs[i].ID in project.Forwards
    ensures ErrorsSound(m.configStore.configs, project.Forwards, errors)
    // every forward is accounted for
    ensures Accounted(m.configStore.configs, project.Forwards, |project.Forwards|, m.portForwarder.running, errors)
  {
    var pf := m.portForwarder;
    var configs := m.configStore.configs;
    var forwards := project.Forwards;
    startedCount := 0;
    errors := [];
    var i := 0;
    while i < |forwards|
      invariant 0 <= i <= |forwards|
      invariant pf.Valid()
      invariant startedCount + |errors| == i
      invariant forall j :: j in old(pf.running) ==> j in pf.running && pf.running[j] == old(pf.running)[j]
      invariant forall j :: j in pf.running && j !in old(pf.running) ==> 0 <= j < |configs| && configs[j].ID in forwards
      invariant ErrorsSound(configs, forwards, errors)
      invariant Accounted(configs, forwards, i, pf.running, errors)
    {
      ghost var running, before := pf.running, errors;
      var started, error := StartForward(m, forwards[i], launch);
      if started {
        startedCount := startedCount + 1;
      } else {
        errors := errors + [error.value];
        assert errors[|before|] == error.value;
      }
      assert errors[..|before|] == before;
      UnknownReportedStep(configs, forwards, i, before, errors);
      KnownHandledStep(configs, forwards, i, running, pf.running, before, errors);
      i := i + 1;
    }
  }

  /** The status after choosing "all port forwards", which stops every forward. */
  const ShowingAllStopped := "Showing all port forwards (all running forwards stopped)"

  /** The status line after a project's forwards all started. */
  function ActivatedText(name: string, started: int): string {
    "Project '" + name + "' activated, started " + FormatInt(started) + " forwards"
  }

  /** The error message after some of a project's forwards failed: the
      counts and the first error. */
  function ActivatedErrorText(name: string, started: int, total: int, first: ForwardError): string {
    "Project '" + name + "' activated, started " + FormatInt(started) + "/" + FormatInt(total)
      + " forwards. Errors: " + ForwardErrorText(first)
  }

  /** What starting a project's forwards leaves: the started and the failed
      forwards add up to the project's forwards, every forward runs or is
      reported, and the status line (no error) or the error message (the
      first error) reports the outcome while the other stays as it was. */
  ghost predicate StartedAndReported(configs: seq<PortForwardConfig>, project: Project,
                                     running: map<int, PortForward.RunningInfo>, started: nat, errors: seq<ForwardError>,
                                     statusMsg: string, errorMsg: string, statusBefore: string, errorBefore: string) {
    started + |errors| == |project.Forwards|
    && ErrorsSound(configs, project.Forwards, errors)
    && Accounted(configs, project.Forwards, |project.Forwards|, running, errors)
    && if |errors| > 0 then
         errorMsg == ActivatedErrorText(project.Name, started, |project.Forwards|, errors[0]) && statusMsg == statusBefore
       else
         statusMsg == ActivatedText(project.Name, started) && errorMsg == errorBefore
  }

  /** handleProjectSelection: stop every running forward, then either show
      all configs (row 0) or activate projects[row - 1] and start its
      forwards; a row past the list changes no project and no message. The
      view returns to the port-forwards table in every case. startedCount
      and startErrors are what startProjectPortForwards returned when a
      project was selected. */
  method HandleProjectSelection(m: Model, cursor: nat, kill: PortForward.Handle -> PortForward.KillResult,
                                launch: int -> PortForward.LaunchResult)
    returns (ghost startedCount: nat, ghost startErrors: seq<ForwardError>)
    requires m.portForwarder.Valid()
    modifies m.portForwarder, m.configStore`activeProject, m`errorMsg, m`statusMsg, m`uiState
    ensures m.portForwarder.Valid()
    ensures m.uiState == StatePortForwards
    // indices beyond the config list are left running
    ensures forall i :: i in old(m.portForwarder.running) && !(0 <= i < |m.configStore.configs|) ==>
      i in m.portForwarder.running && m.portForwarder.running[i] == old(m.portForwarder.running)[i]
    ensures cursor == 0 ==>
      m.configStore.activeProject == None
      && m.statusMsg == ShowingAllStopped && m.errorMsg == old(m.errorMsg)
      && forall i :: 0 <= i < |m.configStore.configs| ==> !m.portForwarder.IsRunning(i)
    ensures cursor > |m.configStore.projects| ==>
      m.configStore.activeProject == old(m.configStore.activeProject)
      && m.statusMsg == old(m.statusMsg) && m.errorMsg == old(m.errorMsg)
      && forall i :: 0 <= i < |m.configStore.configs| ==> !m.portForwarder.IsRunning(i)
    ensures 0 < cursor <= |m.configStore.projects| && m.configStore.projects[cursor - 1].Name != "" ==>
      m.configStore.activeProject.Some? && m.configStore.activeProject.value.Name == m.configStore.projects[cursor - 1].Name
    ensures 0 < cursor <= |m.configStore.projects| ==>
      (forall i :: 0 <= i < |m.configStore.configs| && m.portForwarder.IsRunning(i) ==>
        m.configStore.configs[i].ID in m.configStore.projects[cursor - 1].Forwards)
      && StartedAndReported(m.configStore.configs, m.configStore.projects[cursor - 1], m.portForwarder.running,
                            startedCount, startErrors, m.statusMsg, m.errorMsg, old(m.statusMsg), old(m.errorMsg))
  {
    startedCount, startErrors := 0, [];
    var _ := StopAllRunningPortForwards(m, kill);
    if cursor == 0 {
      m.configStore.ClearActiveProject();
      m.statusMsg := ShowingAllStopped;
    } else {
      var projects := m.configStore.projects;
      if cursor - 1 < |projects| {
        var selected := projects[cursor - 1];
        assert Names(projects)[cursor - 1] == selected.Name;
        var started, errors := ActivateAndStart(m, selected, launch);
        startedCount, startErrors := started, errors;
      }
    }
    m.uiState := StatePortForwards;
  }

  /** The project branch of handleProjectSelection, once every forward of
      the config list is stopped: activate the project, start its forwards
      and report how many started. */
  method ActivateAndStart(m: Model, selected: Project, launch: int -> PortForward.LaunchResult)
    returns (startedCount: nat, startErrors: seq<ForwardError>)
    requires m.portForwarder.Valid()
    requires selected.Name in Names(m.configStore.projects)
    requires forall i :: 0 <= i < |m.configStore.configs| ==> !m.portForwarder.IsRunning(i)
    modifies m.portForwarder, m.configStore`activeProject, m`errorMsg, m`statusMsg
    ensures m.portForwarder.Valid()
    ensures forall i :: i in old(m.portForwarder.running) ==>
      i in m.portForwarder.running && m.portForwarder.running[i] == old(m.portForwarder.running)[i]
    ensures selected.Name != "" ==>
      m.configStore.activeProject.Some? && m.configStore.activeProject.value.Name == selected.Name
    ensures forall i :: 0 <= i < |m.configStore.configs| && m.portForwarder.IsRunning(i) ==>
      m.configStore.configs[i].ID in selected.Forwards
    ensures StartedAndReported(m.configStore.configs, selected, m.portForwarder.running, startedCount, startErrors,
                               m.statusMsg, m.errorMsg, old(m.statusMsg), old(m.errorMsg))
  {
    ghost var running0 := m.portForwarder.running;
    forall i | 0 <= i < |m.configStore.configs|
      ensures i !in running0
    {
      assert !m.portForwarder.IsRunning(i);
    }
    var err := m.configStore.SetActiveProject(selected.Name);
    if err.Some? {
      // SetActiveProject cannot fail for a name taken from the project list.
      assert false;
    } else {
      startedCount, startErrors := StartProjectPortForwards(m, selected, launch);
      forall i | 0 <= i < |m.configStore.configs| && m.portForwarder.IsRunning(i)
        ensures m.configStore.configs[i].ID in selected.Forwards
      {
        assert i in m.portForwarder.running && i !in running0;
      }
      if |startErrors| > 0 {
        m.errorMsg := ActivatedErrorText(selected.Name, startedCount, |selected.Forwards|, startErrors[0]);
      } else {
        m.statusMsg := ActivatedText(selected.Name, startedCount);
      }
    }
  }
}
