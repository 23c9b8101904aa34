/** The tunnel supervisor of pkg/k8s/portforward.go.

    A PortForwarder keeps two maps that change together: which config index
    is running (and on which local port), and which index holds each local
    port reservation. Launching and killing kubectl are outside the model:
    the launcher's verdict and the kill outcome are parameters. The lock that
    the Go code releases around the launch is collapsed: every operation here
    is one atomic step. */
module PortForward {
  import opened Common
  import opened GoStrings

  /** An opaque handle of a started kubectl process. */
  type Handle = nat

  /** runningInfo: the process and the local port it forwards. */
  datatype RunningInfo = RunningInfo(cmd: Handle, localPort: int)

  /** The ways StartPortForward refuses to produce a process. */
  datatype LaunchError =
    | PortInUse                       // the local port is taken by another program
    | StartFailed(stderr: string)     // cmd.Start() failed
    | ExitedQuickly(stderr: string)   // the process was gone right after start
    | StderrOutput(text: string)      // the process wrote to stderr at once (trimmed)

  /** What StartPortForward returned: a command (possibly nil) or an error. */
  datatype LaunchResult = Launched(cmd: Option<Handle>) | LaunchFailed(err: LaunchError)

  /** What Process.Kill returned. */
  datatype KillResult = Killed | KillFailed(reason: string)

  /** The errors the supervisor hands back to its callers. */
  datatype Error =
    | LocalPortReserved                 // ErrLocalPortReserved
    | Launch(cause: LaunchError)        // the launcher's error, unchanged
    | NilCommand(index: int)            // launcher returned neither command nor error
    | KillError(reason: string)         // StopPortForward's error, unchanged
    | StopChangedFailed(reason: string) // "failed to stop changed config: ..."
    | StopRemovedFailed(reason: string) // "failed to stop removed config: ..."

  /** The text an error prints with %v. The operating system's own error
      text and the index holding a reserved port are not part of the model. */
  function ErrorText(e: Error): string {
    match e
    case LocalPortReserved => "local port is already reserved by another active forward"
    case Launch(PortInUse) => "local port already in use"
    case Launch(StartFailed(stderr)) => if stderr == "" then "kubectl start failed" else "kubectl start failed (stderr: " + stderr + ")"
    case Launch(ExitedQuickly(stderr)) => "kubectl exited quickly. Stderr: " + stderr
    case Launch(StderrOutput(text)) => text
    case NilCommand(index) => "StartPortForward returned nil command without error for index " + FormatInt(index)
    case KillError(reason) => reason
    case StopChangedFailed(reason) => "failed to stop changed config: " + reason
    case StopRemovedFailed(reason) => "failed to stop removed config: " + reason
  }

  /** What the environment looked like when StartPortForward ran. */
  datatype LaunchProbe = LaunchProbe(
    portFree: bool,              // isPortAvailable(localPort)
    startError: Option<string>,  // the error of cmd.Start(), if any
    exited: bool,                // cmd.ProcessState != nil right after start
    stderr: string,              // what the process had written to stderr
    process: Handle)             // the process handle on success

  /** StartPortForward's decision (lines 77-138): the checks in their order. */
  function StartPortForward(probe: LaunchProbe): (r: LaunchResult)
    ensures r.Launched? <==> probe.portFree && probe.startError.None? && !probe.exited && probe.stderr == ""
    ensures r.Launched? ==> r.cmd == Some(probe.process)
    ensures !probe.portFree ==> r == LaunchFailed(PortInUse)
    ensures r.LaunchFailed? && r.err.StderrOutput? ==> r.err.text == TrimSpace(probe.stderr)
  {
    if !probe.portFree then LaunchFailed(PortInUse)
    else if probe.startError.Some? then LaunchFailed(StartFailed(probe.stderr))
    else if probe.exited then LaunchFailed(ExitedQuickly(probe.stderr))
    else if probe.stderr != "" then LaunchFailed(StderrOutput(TrimSpace(probe.stderr)))
    else Launched(Some(probe.process))
  }

  /** The kubectl argument list StartPortForward builds (lines 88-95). */
  function KubectlArgs(cfg: PortForwardConfig): (r: seq<string>)
    ensures cfg.Context == "" ==> |r| == 5 && r[0] == "port-forward"
    ensures cfg.Context != "" ==> |r| == 7 && r[..2] == ["--context", cfg.Context] && r[2] == "port-forward"
    ensures r[|r| - 4] == "--namespace" && r[|r| - 3] == cfg.Namespace && r[|r| - 2] == "svc/" + cfg.Service
    ensures r[|r| - 1] == FormatInt(cfg.PortLocal) + ":" + FormatInt(cfg.PortRemote)
  {
    var base := ["port-forward", "--namespace", cfg.Namespace, "svc/" + cfg.Service,
                 FormatInt(cfg.PortLocal) + ":" + FormatInt(cfg.PortRemote)];
    if cfg.Context != "" then ["--context", cfg.Context] + base else base
  }

  /** The link between the two maps: every running index holds the reservation
      of its own local port, and every reservation belongs to a running index
      with that port. */
  ghost predicate Coupled(running: map<int, RunningInfo>, ports: map<int, int>) {
    (forall i :: i in running ==> running[i].localPort in ports && ports[running[i].localPort] == i)
    && (forall p :: p in ports ==> ports[p] in running && running[ports[p]].localPort == p)
  }

  /** No two running indices share a local port. */
  lemma CoupledPortsDistinct(running: map<int, RunningInfo>, ports: map<int, int>, i: int, j: int)
    requires Coupled(running, ports)
    requires i in running && j in running && i != j
    ensures running[i].localPort != running[j].localPort
  {
  }

  /** The running map alone fixes the reservation map. */
  lemma CoupledPortsDetermined(running: map<int, RunningInfo>, a: map<int, int>, b: map<int, int>)
    requires Coupled(running, a) && Coupled(running, b)
    ensures a == b
  {
    forall p | p in a ensures p in b && b[p] == a[p] {
      var i := a[p];
      assert i in running && running[i].localPort == p;
    }
    forall p | p in b ensures p in a {
      var i := b[p];
      assert i in running && running[i].localPort == p;
    }
  }

  /** Dropping a running index and its port keeps the maps coupled. */
  lemma CoupledRemove(running: map<int, RunningInfo>, ports: map<int, int>, i: int)
    requires Coupled(running, ports) && i in running
    ensures Coupled(running - {i}, ports - {running[i].localPort})
  {
  }

  /** configParamsChanged: some field of the two configs differs. */
  function ConfigParamsChanged(a: PortForwardConfig, b: PortForwardConfig): (r: bool)
    ensures r <==> a != b
  {
    a.Context != b.Context || a.Namespace != b.Namespace || a.Service != b.Service
    || a.PortRemote != b.PortRemote || a.PortLocal != b.PortLocal || a.ID != b.ID
  }

  /** configsExactlyEqual: every field agrees. */
  function ConfigsExactlyEqual(a: PortForwardConfig, b: PortForwardConfig): (r: bool)
    ensures r <==> a == b
  {
    a.Context == b.Context && a.Namespace == b.Namespace && a.Service == b.Service
    && a.PortRemote == b.PortRemote && a.PortLocal == b.PortLocal && a.ID == b.ID
  }

  /** The two comparisons are exact negations of each other. */
  lemma ExactlyEqualIsNotChanged(a: PortForwardConfig, b: PortForwardConfig)
    ensures ConfigsExactlyEqual(a, b) == !ConfigParamsChanged(a, b)
  {
  }

  /** The error Stop hands back for a kill outcome. */
  function KillOutcome(k: KillResult): Option<Error> {
    if k.Killed? then None else Some(KillError(k.reason))
  }

  /** ReloadSync's verdict for position i: a running forward there has to go,
      because the config at i changed or no longer exists. */
  predicate Affected(oldConfigs: seq<PortForwardConfig>, newConfigs: seq<PortForwardConfig>, i: int) {
    0 <= i < |oldConfigs| && (i < |newConfigs| ==> ConfigParamsChanged(oldConfigs[i], newConfigs[i]))
  }

  /** Reloading a list onto itself affects no position. */
  lemma SameListAffectsNothing(configs: seq<PortForwardConfig>, i: int)
    ensures !Affected(configs, configs, i)
  {
  }

  predicate StrictlyIncreasing(s: seq<int>) {
    forall a, b :: 0 <= a < b < |s| ==> s[a] < s[b]
  }

  /** Appending a value above every element keeps a sequence strictly increasing. */
  lemma AppendIncreasing(s: seq<int>, x: int)
    requires StrictlyIncreasing(s) && forall j :: j in s ==> j < x
    ensures StrictlyIncreasing(s + [x])
  {
    forall a, b | 0 <= a < b < |s| + 1 ensures (s + [x])[a] < (s + [x])[b] {
      if b == |s| {
        assert s[a] in s;
      }
    }
  }

  /** ReloadResult: what ReloadSync did, position by position. */
  datatype ReloadResult = ReloadResult(Stopped: seq<int>, Started: seq<int>, Updated: seq<int>, Errors: map<int, Error>)

  /** The error ReloadSync records for a failed kill at position i. */
  function ReloadKillError(newConfigs: seq<PortForwardConfig>, i: int, reason: string): Error {
    if i < |newConfigs| then StopChangedFailed(reason) else StopRemovedFailed(reason)
  }

  /** The result ReloadSync builds from the positions below i, given the
      running map it started from and the kill outcome of each process. */
  ghost function Reloaded(o: seq<PortForwardConfig>, n: seq<PortForwardConfig>, kill: Handle -> KillResult,
                          before: map<int, RunningInfo>, i: int): ReloadResult
    decreases i
  {
    if i <= 0 then ReloadResult([], [], [], map[])
    else
      var res := Reloaded(o, n, kill, before, i - 1);
      var p := i - 1;
      var stop := p in before && Affected(o, n, p);
      var stopped := if stop && kill(before[p].cmd).Killed? then res.Stopped + [p] else res.Stopped;
      var errors := if stop && kill(before[p].cmd).KillFailed?
        then res.Errors[p := ReloadKillError(n, p, kill(before[p].cmd).reason)] else res.Errors;
      var updated := if p < |o| && p < |n| && ConfigParamsChanged(o[p], n[p]) then res.Updated + [p] else res.Updated;
      ReloadResult(stopped, res.Started, updated, errors)
  }

  /** The forwards still running once positions below i are handled. */
  ghost function RunningAfter(o: seq<PortForwardConfig>, n: seq<PortForwardConfig>, before: map<int, RunningInfo>, i: int)
    : map<int, RunningInfo>
  {
    map j | j in before && !(Affected(o, n, j) && j < i) :: before[j]
  }

  /** Positions below i are updated exactly when both lists have them and
      they changed, in increasing order; nothing is started. */
  lemma {:induction false} ReloadedUpdated(o: seq<PortForwardConfig>, n: seq<PortForwardConfig>, kill: Handle -> KillResult,
                                           before: map<int, RunningInfo>, i: int)
    requires i >= 0
    ensures Reloaded(o, n, kill, before, i).Started == []
    ensures forall j :: j in Reloaded(o, n, kill, before, i).Updated <==>
      0 <= j < i && j < |o| && j < |n| && ConfigParamsChanged(o[j], n[j])
    ensures StrictlyIncreasing(Reloaded(o, n, kill, before, i).Updated)
  {
    if i > 0 {
      var p := i - 1;
      var prior := Reloaded(o, n, kill, before, p).Updated;
      ReloadedUpdated(o, n, kill, before, p);
      AppendIncreasing(prior, p);
      assert Reloaded(o, n, kill, before, i).Updated
        == if p < |o| && p < |n| && ConfigParamsChanged(o[p], n[p]) then prior + [p] else prior;
    }
  }

  /** A running affected position below i is stopped exactly when its kill
      succeeds, in increasing order. */
  lemma {:induction false} ReloadedStopped(o: seq<PortForwardConfig>, n: seq<PortForwardConfig>, kill: Handle -> KillResult,
                                           before: map<int, RunningInfo>, i: int)
    requires i >= 0
    ensures forall j :: j in Reloaded(o, n, kill, before, i).Stopped <==>
      j in before && Affected(o, n, j) && j < i && kill(before[j].cmd).Killed?
    ensures StrictlyIncreasing(Reloaded(o, n, kill, before, i).Stopped)
  {
    if i > 0 {
      var p := i - 1;
      var prior := Reloaded(o, n, kill, before, p).Stopped;
      ReloadedStopped(o, n, kill, before, p);
      AppendIncreasing(prior, p);
      assert Reloaded(o, n, kill, before, i).Stopped
        == if p in before && Affected(o, n, p) && kill(before[p].cmd).Killed? then prior + [p] else prior;
    }
  }

  /** A running affected position below i has an error exactly when its
      kill fails, and the error carries the kill's reason. */
  lemma {:induction false} ReloadedErrors(o: seq<PortForwardConfig>, n: seq<PortForwardConfig>, kill: Handle -> KillResult,
                                          before: map<int, RunningInfo>, i: int)
    requires i >= 0
    ensures forall j :: j in Reloaded(o, n, kill, before, i).Errors <==>
      j in before && Affected(o, n, j) && j < i && kill(before[j].cmd).KillFailed?
    ensures forall j :: j in Reloaded(o, n, kill, before, i).Errors ==>
      Reloaded(o, n, kill, before, i).Errors[j] == ReloadKillError(n, j, kill(before[j].cmd).reason)
  {
    if i > 0 {
      ReloadedErrors(o, n, kill, before, i - 1);
      var prev := Reloaded(o, n, kill, before, i - 1).Errors;
      var p := i - 1;
      if p in before && Affected(o, n, p) && kill(before[p].cmd).KillFailed? {
        assert Reloaded(o, n, kill, before, i).Errors == prev[p := ReloadKillError(n, p, kill(before[p].cmd).reason)];
      } else {
        assert Reloaded(o, n, kill, before, i).Errors == prev;
      }
    }
  }

  /** What the result of the first i positions says: nothing started; a
      position is updated iff both lists have it and it changed; a running
      affected position is stopped or has an error, by its kill outcome; both
      lists are in increasing position order. */
  lemma ReloadedFacts(o: seq<PortForwardConfig>, n: seq<PortForwardConfig>, kill: Handle -> KillResult,
                                         before: map<int, RunningInfo>, i: int)
    requires i >= 0
    ensures Reloaded(o, n, kill, before, i).Started == []
    ensures forall j :: j in Reloaded(o, n, kill, before, i).Updated <==>
      0 <= j < i && j < |o| && j < |n| && ConfigParamsChanged(o[j], n[j])
    ensures forall j :: j in Reloaded(o, n, kill, before, i).Stopped <==>
      j in before && Affected(o, n, j) && j < i && kill(before[j].cmd).Killed?
    ensures forall j :: j in Reloaded(o, n, kill, before, i).Errors <==>
      j in before && Affected(o, n, j) && j < i && kill(before[j].cmd).KillFailed?
    ensures forall j :: j in Reloaded(o, n, kill, before, i).Errors ==>
      Reloaded(o, n, kill, before, i).Errors[j] == ReloadKillError(n, j, kill(before[j].cmd).reason)
    ensures StrictlyIncreasing(Reloaded(o, n, kill, before, i).Updated)
    ensures StrictlyIncreasing(Reloaded(o, n, kill, before, i).Stopped)
  {
    ReloadedUpdated(o, n, kill, before, i);
    ReloadedStopped(o, n, kill, before, i);
    ReloadedErrors(o, n, kill, before, i);
  }

  /** Reloading a list onto itself produces an empty result. */
  lemma {:induction false} ReloadedSameList(configs: seq<PortForwardConfig>, kill: Handle -> KillResult,
                                            before: map<int, RunningInfo>, i: int)
    ensures Reloaded(configs, configs, kill, before, i) == ReloadResult([], [], [], map[])
    decreases i
  {
    if i > 0 {
      ReloadedSameList(configs, kill, before, i - 1);
      SameListAffectsNothing(configs, i - 1);
    }
  }

  /** Reloading a list onto itself leaves every forward running. */
  lemma RunningAfterSameList(configs: seq<PortForwardConfig>, before: map<int, RunningInfo>, i: int)
    ensures RunningAfter(configs, configs, before, i) == before
  {
    forall j | j in before ensures !Affected(configs, configs, j) {
      SameListAffectsNothing(configs, j);
    }
  }

  class PortForwarder {
    /** RunningForwards: config index -> running process. */
    var running: map<int, RunningInfo>
    /** activeLocalPorts: local port -> config index holding it. */
    var activePorts: map<int, int>
    /** Every process this supervisor asked the OS to kill, in order. */
    ghost var killed: seq<Handle>

    ghost predicate Valid()
      reads this
    {
      Coupled(running, activePorts)
    }

    /** NewPortForwarder. */
    constructor ()
      ensures Valid() && running == map[] && activePorts == map[] && killed == []
    {
      running := map[];
      activePorts := map[];
      killed := [];
    }

    /** IsRunning. */
    predicate IsRunning(index: int)
      reads this
    {
      index in running
    }

    /** Start: reserve the port, run the launcher, then record the process or
        release the reservation. `launch` is what StartPortForward returns. */
    method Start(index: int, cfg: PortForwardConfig, launch: LaunchResult) returns (err: Option<Error>)
      requires Valid()
      modifies this
      ensures Valid() && killed == old(killed)
      ensures index in old(running) ==>
        err == None && running == old(running) && activePorts == old(activePorts)
      ensures index !in old(running) && cfg.PortLocal in old(activePorts) ==>
        err == Some(LocalPortReserved) && running == old(running) && activePorts == old(activePorts)
      ensures index !in old(running) && cfg.PortLocal !in old(activePorts) ==>
        match launch
        case Launched(Some(h)) =>
          err == None
          && running == old(running)[index := RunningInfo(h, cfg.PortLocal)]
          && activePorts == old(activePorts)[cfg.PortLocal := index]
        case Launched(None) =>
          err == Some(NilCommand(index)) && running == old(running) && activePorts == old(activePorts)
        case LaunchFailed(e) =>
          err == Some(Launch(e)) && running == old(running) && activePorts == old(activePorts)
    {
      var localPort := cfg.PortLocal;
      if index in running {
        return None;
      }
      if localPort in activePorts {
        return Some(LocalPortReserved);
      }
      activePorts := activePorts[localPort := index];
      match launch {
        case LaunchFailed(e) =>
          if localPort in activePorts && activePorts[localPort] == index {
            activePorts := activePorts - {localPort};
          }
          return Some(Launch(e));
        case Launched(cmd) =>
          if cmd.Some? {
            running := running[index := RunningInfo(cmd.value, localPort)];
            return None;
          }
          if localPort in activePorts && activePorts[localPort] == index {
            activePorts := activePorts - {localPort};
          }
          return Some(NilCommand(index));
      }
    }

    /** Stop: release the reservation, kill the process, and forget the index
        whatever the kill returned. */
    method Stop(index: int, kill: Handle -> KillResult) returns (err: Option<Error>)
      requires Valid()
      modifies this
      ensures Valid()
      ensures index !in old(running) ==>
        err == None && running == old(running) && activePorts == old(activePorts) && killed == old(killed)
      ensures index in old(running) ==>
        running == old(running) - {index}
        && activePorts == old(activePorts) - {old(running)[index].localPort}
        && killed == old(killed) + [old(running)[index].cmd]
        && err == KillOutcome(kill(old(running)[index].cmd))
    {
      if index !in running {
        return None;
      }
      var info := running[index];
      var localPort := info.localPort;
      CoupledRemove(running, activePorts, index);
      if localPort in activePorts {
        if activePorts[localPort] == index {
          activePorts := activePorts - {localPort};
        }
      }
      killed := killed + [info.cmd];
      err := KillOutcome(kill(info.cmd));
      running := running - {index};
    }

    /** stopInternal: the same removal, called with the lock already held. */
    method StopInternal(index: int, kill: Handle -> KillResult) returns (err: Option<Error>)
      requires Valid()
      modifies this
      ensures Valid()
      ensures index !in old(running) ==>
        err == None && running == old(running) && activePorts == old(activePorts) && killed == old(killed)
      ensures index in old(running) ==>
        running == old(running) - {index}
        && activePorts == old(activePorts) - {old(running)[index].localPort}
        && killed == old(killed) + [old(running)[index].cmd]
        && err == KillOutcome(kill(old(running)[index].cmd))
    {
      if index !in running {
        return None;
      }
      var info := running[index];
      var localPort := info.localPort;
      CoupledRemove(running, activePorts, index);
      if localPort in activePorts && activePorts[localPort] == index {
        activePorts := activePorts - {localPort};
      }
      killed := killed + [info.cmd];
      err := KillOutcome(kill(info.cmd));
      running := running - {index};
    }

    /** SyncPortForwards: a no-op that reports no errors. */
    method SyncPortForwards(configs: seq<PortForwardConfig>) returns (errs: map<int, Error>)
      ensures errs == map[]
    {
      errs := map[];
    }

    /** CleanupAll: kill every running process, ignoring kill errors, and
        empty both maps. */
    method CleanupAll(kill: Handle -> KillResult)
      requires Valid()
      modifies this
      ensures Valid() && running == map[] && activePorts == map[]
      ensures forall i :: !IsRunning(i)
      ensures |killed| >= |old(killed)| && killed[..|old(killed)|] == old(killed)
      ensures forall i :: i in old(running) ==> old(running)[i].cmd in killed[|old(killed)|..]
    {
      var pending := running.Keys;
      while pending != {}
        invariant Valid() && pending == running.Keys
        invariant forall i :: i in running ==> i in old(running) && running[i] == old(running)[i]
        invariant |killed| >= |old(killed)| && killed[..|old(killed)|] == old(killed)
        invariant forall i :: i in old(running) && i !in running ==> old(running)[i].cmd in killed[|old(killed)|..]
        decreases pending
      {
        assert (forall y :: y !in pending) ==> pending == {};
        var idx :| idx in pending;
        ghost var before := killed;
        var _ := StopInternal(idx, kill);
        assert killed[|old(killed)|..] == before[|old(killed)|..] + [old(running)[idx].cmd];
        pending := pending - {idx};
      }
      running := map[];
      activePorts := map[];
    }

    /** One position of ReloadSync's loop: a changed position is recorded as
        updated and, when it runs, stopped; a removed position that runs is
        stopped; a failed stop is recorded as the position's error. */
    method ReloadPosition(oldConfigs: seq<PortForwardConfig>, newConfigs: seq<PortForwardConfig>, kill: Handle -> KillResult,
                          ghost before: map<int, RunningInfo>, i: int, res: ReloadResult)
      returns (res': ReloadResult)
      requires Valid() && 0 <= i
      requires res == Reloaded(oldConfigs, newConfigs, kill, before, i)
      requires running == RunningAfter(oldConfigs, newConfigs, before, i)
      modifies this
      ensures Valid()
      ensures res' == Reloaded(oldConfigs, newConfigs, kill, before, i + 1)
      ensures running == RunningAfter(oldConfigs, newConfigs, before, i + 1)
    {
      res' := res;
      if i < |oldConfigs| && i < |newConfigs| {
        if ConfigParamsChanged(oldConfigs[i], newConfigs[i]) {
          if i in running {
            var e := StopInternal(i, kill);
            if e.Some? {
              res' := res'.(Errors := res'.Errors[i := StopChangedFailed(e.value.reason)]);
            } else {
              res' := res'.(Stopped := res'.Stopped + [i]);
            }
          }
          res' := res'.(Updated := res'.Updated + [i]);
        }
      } else if i < |oldConfigs| {
        if i in running {
          var e := StopInternal(i, kill);
          if e.Some? {
            res' := res'.(Errors := res'.Errors[i := StopRemovedFailed(e.value.reason)]);
          } else {
            res' := res'.(Stopped := res'.Stopped + [i]);
          }
        }
      }
    }

    /** ReloadSync: compare the two lists position by position; stop what runs
        at a changed or removed position, record changed positions as updated,
        and start nothing. */
    method ReloadSync(oldConfigs: seq<PortForwardConfig>, newConfigs: seq<PortForwardConfig>, kill: Handle -> KillResult)
      returns (res: ReloadResult, err: Option<Error>)
      requires Valid()
      modifies this
      ensures Valid() && err == None
      ensures res == Reloaded(oldConfigs, newConfigs, kill, old(running),
                              if |oldConfigs| < |newConfigs| then |newConfigs| else |oldConfigs|)
      ensures running == RunningAfter(oldConfigs, newConfigs, old(running), |oldConfigs|)
    {
      res := ReloadResult([], [], [], map[]);
      var maxLen := if |oldConfigs| < |newConfigs| then |newConfigs| else |oldConfigs|;
      var i := 0;
      while i < maxLen
        invariant 0 <= i <= maxLen && Valid()
        invariant res == Reloaded(oldConfigs, newConfigs, kill, old(running), i)
        invariant running == RunningAfter(oldConfigs, newConfigs, old(running), i)
      {
        res := ReloadPosition(oldConfigs, newConfigs, kill, old(running), i, res);
        i := i + 1;
      }
      assert running == RunningAfter(oldConfigs, newConfigs, old(running), |oldConfigs|);
      return res, None;
    }
  }
}
