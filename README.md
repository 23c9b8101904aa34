# kprtfwd, modelled in Dafny

kprtfwd is a terminal tool that manages `kubectl port-forward` processes. It
keeps a list of port-forward configurations, each naming a Kubernetes
context, namespace, service, remote port and local port under a unique ID.
It also keeps named projects that group those IDs. The port-forward
supervisor starts and stops one `kubectl` process per configuration index.
It reserves each local port so that two forwards never share one.
Discovery lists a cluster's services and turns the selected ports into
configurations with generated IDs. `prune` deletes configurations whose
service is gone from the cluster. The terminal UI shows the configurations
as a flat or grouped table, filters them, and edits projects and discovery
selections.

This project models that core:

- **`Common`, `GoStrings`** (common.dfy): the configuration and project
  records, and the Go string operations the code relies on (`TrimSpace`,
  ASCII `ToLower`, `strings.Contains`, `%d`, string order).
- **`Store`** (store.dfy): the in-memory `ConfigStore` class and its
  validation, projects, active project and integrity clean-up.
- **`Sqlite`** (sqlite.dfy): the row list of the SQLite store that discovery
  and prune write to, with `GetAll`'s order, `Add`, `DeletePortForward` and
  `Get`.
- **`PortForward`** (portforward.dfy): the `PortForwarder` class. It holds a
  running map and a local-port reservation map, and has `Start`, `Stop`,
  `CleanupAll` and `ReloadSync`.
- **`Discovery`, `DiscoveryK8s`** (discovery.dfy, discovery_k8s.dfy):
  - ID generation and `sanitizeIDPart`;
  - service-type detection;
  - `GenerateConfig`;
  - wildcard namespace patterns;
  - the filtering steps of `DiscoverServices`.
- **`Prune`, `Cli`** (prune.dfy, cli.dfy): the prune command after
  discovery, and the subcommand dispatch of `main`.
- **`UITypes`, `UIModelHelpers`, `UIModel`** (ui_types.dfy,
  ui_model_helpers.dfy, ui_model.dfy):
  - the UI `Model`;
  - flat and grouped rows, group states and the table-row lookup;
  - the column-width calculations and resize clamps;
  - the text filter and the restart summary.
- **`UIDiscovery`, `UIProjects`, `UIProjectManagement`** (ui_discovery.dfy,
  ui_projects.dfy, ui_project_management.dfy): the discovery, project
  selection and project management handlers.

The model takes the source's own form:

- Objects whose methods update their fields are classes with `modifies`
  clauses: `ConfigStore`, `PortForwarder` and the UI `Model`.
- Loops are methods with invariants, proved against value functions.
- Facts relating several operations are lemmas about those functions.

Go's integers are modelled as unbounded; the ports and counts involved never
come near 64 bits. The outcomes of running processes are parameters:

- `kubectl` runs, the port-availability probe and process kills are given as
  values (`LaunchProbe`, `LaunchResult`, `KillResult` and kill functions);
- the cluster's answers to discovery are given as values;
- the operator's replies at the prompt are given as values.

Three details of the code the model follows:

- `Start` refuses a local port reserved by any index, not only by another
  one. While the maps stay coupled a reservation by the same index cannot
  exist, so the two readings agree on every reachable state.
- `IsRunning` keys are positions in the config list, not config IDs, and
  `ReloadSync` compares the old and new lists position by position.
- The reservation is held across the launch; with the lock collapsed, the
  branch where another index took the reservation meanwhile cannot occur.

## Model

| member | source | states |
|---|---|---|
| Cli.Dispatch | main.go:22-36 | "discover" or "prune" as the first argument selects that subcommand, both directions; anything else, including no argument, starts the UI |
| Cli.DispatchIgnoresFlags | main.go:22-33 | flags after the subcommand never change which command runs |
| Cli.GetOutputDisplay | main.go:223-228 | the output file name, or "stdout" when none is given; never empty |
| Common.IndexOfID | pkg/config/store.go:374-384 | the first index whose config has the ID, or -1 exactly when no config has it |
| Common.WithoutCounts | pkg/config/store.go:549-574 | dropping an ID from a forward list removes every copy of it and keeps every other ID with its multiplicity |
| Common.WithoutIdentity | pkg/config/store.go:555-566 | dropping an ID leaves the list unchanged exactly when the ID does not occur |
| Common.KeepKnownFacts | pkg/config/store.go:605-649 | keeping the known IDs keeps each known ID with its multiplicity and shortens the list exactly when some ID is unknown |
| GoStrings.TrimSpaceEmpty | pkg/config/store.go:393-397 | a name trims to "" exactly when it is all white space |
| GoStrings.TrimSpaceIdentity | pkg/config/store.go:245-247 | a string equals its trim exactly when it has no white space at either end |
| GoStrings.FormatInt | pkg/ui/model_helpers.go:51-52 | `%d` of n is never empty and starts with '-' exactly when n is negative; UIDiscovery.ScanFormatRoundTrip reads its value back |
| GoStrings.LexLessTransitive | pkg/ui/model_helpers.go:106-111 | Go string order, which sorts the group names, is transitive |
| GoStrings.LexLessTotal | pkg/ui/model_helpers.go:106-111 | two distinct strings are always ordered one way or the other |
| Discovery.SanitizeShape | pkg/discovery/types.go:141-166 | the result is non-empty, uses only letters, digits and hyphens, has no hyphen at either end and never two hyphens in a row |
| Discovery.SanitizeContent | pkg/discovery/types.go:141-166 | the result keeps exactly the input's letters and digits in order, and is "unknown" exactly when there are none |
| Discovery.SanitizeIdempotent | pkg/discovery/types.go:141-166 | sanitizing twice equals sanitizing once |
| Discovery.SanitizeIDPart | pkg/discovery/types.go:141-166 | the two loops compute the sanitized value |
| Discovery.Contains | pkg/discovery/types.go:168-174 | the short cuts plus the scan hold exactly when substr occurs in str |
| Discovery.FindSubstring | pkg/discovery/types.go:176-183 | the offset scan finds substr exactly when it occurs in str |
| Discovery.FirstTypeFrom | pkg/discovery/types.go:121-134 | the first common type occurring in the name, every earlier one absent; -1 exactly when none occurs |
| Discovery.DetectServiceType | pkg/discovery/types.go:104-138 | a sanitized label wins; otherwise a common type occurring in the name; otherwise "service" |
| Discovery.ServiceTypeHasNoDot | pkg/discovery/types.go:104-138 | the detected type is a non-empty word without a dot |
| Discovery.ServiceIDParts | pkg/discovery/types.go:87-101 | a generated ID splits at its dots into exactly the sanitized context, the type and the discriminator |
| Discovery.GenerateServiceID | pkg/discovery/types.go:87-101 | the ID is the sanitized context, type and discriminator joined by dots |
| Discovery.Generated | pkg/discovery/types.go:51-83 | one config per port of each selected service, in the cluster's context, with local port equal to remote port |
| Discovery.NothingSelected | pkg/discovery/types.go:54-57 | with no service selected nothing is generated |
| Discovery.GenerateConfig | pkg/discovery/types.go:51-83 | the loops emit exactly the generated configs, in service and port order |
| DiscoveryK8s.WildcardTrivial | pkg/discovery/k8s.go:372-378 | "*" matches every name, and "" matches only "" |
| DiscoveryK8s.WildcardPrefix | pkg/discovery/k8s.go:380-384 | "p*" matches exactly the names starting with p |
| DiscoveryK8s.WildcardSuffix | pkg/discovery/k8s.go:386-390 | "*s" matches exactly the names ending with s |
| DiscoveryK8s.WildcardMiddle | pkg/discovery/k8s.go:392-396 | "*m*" matches exactly the names containing m |
| DiscoveryK8s.WildcardExact | pkg/discovery/k8s.go:380-399 | a pattern without a star at either end matches only itself |
| DiscoveryK8s.CurrentContext | pkg/discovery/k8s.go:137-162 | a failed kubectl call is an error; success is the trimmed output, which is never empty |
| DiscoveryK8s.MatchingCounts | pkg/discovery/k8s.go:195-201 | the namespace filter keeps every matching name with its multiplicity and no other |
| DiscoveryK8s.DiscoverNamespaces | pkg/discovery/k8s.go:165-208 | a listing failure, an empty listing and a listing with no match are errors; otherwise the matching names in order |
| DiscoveryK8s.WithPortsCounts | pkg/discovery/k8s.go:243-287 | conversion keeps every service that has a port, with its multiplicity, and drops the rest |
| DiscoveryK8s.ConvertServices | pkg/discovery/k8s.go:243-287 | the conversion loop yields the services with ports in order |
| DiscoveryK8s.InNamespacesCounts | pkg/discovery/k8s.go:80-87 | the namespace step keeps exactly the services of matched namespaces |
| DiscoveryK8s.FilterByNamespace | pkg/discovery/k8s.go:80-87 | the loop keeps the services whose namespace is in the set, in order |
| DiscoveryK8s.NamespaceSet | pkg/discovery/k8s.go:75-78 | the set holds exactly the listed namespaces |
| DiscoveryK8s.DiscoverEach | pkg/discovery/k8s.go:109-125 | one unselected entry per filtered service, in order |
| DiscoveryK8s.Discovered | pkg/discovery/k8s.go:99-133 | nothing is selected, the total count is the number of services, and the context and filter are recorded |
| DiscoveryK8s.DiscoverServices | pkg/discovery/k8s.go:44-134 | the given context or the current one, else the context error; a failed namespace listing, an empty one, one with no match and a failed service listing each give their own error; otherwise the discovered result for the matching namespaces' services |
| PortForward.StartPortForward | pkg/k8s/portforward.go:77-138 | a process counts as launched exactly when the port is free, it started, it did not exit early and it wrote no stderr; a busy port is ErrPortInUse |
| PortForward.KubectlArgs | pkg/k8s/portforward.go:88-95 | the kubectl argument list: an optional `--context`, then port-forward, namespace, `svc/<service>` and `local:remote` |
| PortForward.CoupledPortsDistinct | pkg/k8s/portforward.go:37-43 | no two running forwards hold the same local port |
| PortForward.CoupledPortsDetermined | pkg/k8s/portforward.go:37-43 | the running map alone fixes the reservation map |
| PortForward.ExactlyEqualIsNotChanged | pkg/k8s/portforward.go:456-473 | configsExactlyEqual is exactly the negation of configParamsChanged |
| PortForward.ConfigParamsChanged | pkg/k8s/portforward.go:456-463 | true exactly when some field differs |
| PortForward.PortForwarder.constructor | pkg/k8s/portforward.go:46-52 | a new supervisor runs nothing and reserves nothing |
| PortForward.PortForwarder.Start | pkg/k8s/portforward.go:151-217 | an index already running returns no error and changes nothing; a port reserved by any index is ErrLocalPortReserved with no change; otherwise a launched process is recorded with its port, and a failed launch releases the reservation; the invariant is kept |
| PortForward.PortForwarder.Stop | pkg/k8s/portforward.go:220-259 | an index not running returns no error and changes nothing; otherwise the index and its port are forgotten whatever the kill returns, and the kill's error is passed on |
| PortForward.PortForwarder.StopInternal | pkg/k8s/portforward.go:270-283 | the same removal without taking the lock |
| PortForward.PortForwarder.SyncPortForwards | pkg/k8s/portforward.go:264-267 | reports no errors and changes nothing |
| PortForward.PortForwarder.CleanupAll | pkg/k8s/portforward.go:341-355 | every running process was killed; afterwards nothing runs and nothing is reserved |
| PortForward.ReloadedFacts | pkg/k8s/portforward.go:367-453 | nothing is started; updated holds exactly the changed positions; stopped or errors hold exactly the running affected positions, by kill outcome; both lists are increasing |
| PortForward.ReloadedSameList | pkg/k8s/portforward.go:367-453 | reloading a list onto itself reports nothing |
| PortForward.RunningAfterSameList | pkg/k8s/portforward.go:367-453 | reloading a list onto itself leaves every forward running |
| PortForward.PortForwarder.ReloadSync | pkg/k8s/portforward.go:367-453 | the result and the new running map are the reload functions of the old state; the port invariant is kept |
| Prune.WildcardMatchAgrees | pkg/cmd/prune.go:112-132 | prune's wildcardMatch agrees with discovery's pattern match on every input |
| Prune.GetContextDisplay | pkg/cmd/prune.go:135-140 | the context, or "(current context)" when it is empty |
| Prune.BuildDiscovered | pkg/cmd/prune.go:54-58 | the set of namespace/name keys of the discovered services |
| Prune.StaleCounts | pkg/cmd/prune.go:68-80 | the stale list holds exactly the configs of the context whose namespace matches and whose service was not discovered, each with its multiplicity |
| Prune.StaleUnique | pkg/cmd/prune.go:68-80 | stale configs come from the table and keep its distinct IDs |
| Prune.SelectStale | pkg/cmd/prune.go:68-80 | the loop selects the stale configs in table order |
| Prune.DeleteEachAll | pkg/cmd/prune.go:100-107 | on rows with distinct IDs every delete succeeds: the count is the number of stale rows, and exactly the stale rows are gone |
| Prune.DeleteStale | pkg/cmd/prune.go:100-107 | the deletion loop counts only the successful deletes |
| Prune.PruneConfigs | pkg/cmd/prune.go:39-109 | with no stale row or a refused prompt nothing changes; a confirmed prune deletes each stale ID in turn |
| Prune.PruneRemovesAllStale | pkg/cmd/prune.go:66-107 | on a table that keeps its primary key a confirmed prune deletes every stale config and nothing else |
| Sqlite.Add | pkg/config/sqlite_store.go:127-143 | a duplicate ID is refused; otherwise the rows gain exactly the new config |
| Sqlite.AddKeepsOrder | pkg/config/sqlite_store.go:146-171 | adding keeps the rows in context, namespace, service order and the IDs distinct |
| Sqlite.Delete | pkg/config/sqlite_store.go:238-277 | an unknown ID is an error; otherwise exactly the rows with that ID are gone |
| Sqlite.OtherRowsKeepsOrder | pkg/config/sqlite_store.go:146-171 | deleting keeps the row order and the distinct IDs |
| Sqlite.Get | pkg/config/sqlite_store.go:189-195 | the row at an index in range, none otherwise |
| Store.ProjectIndex | pkg/config/store.go:502-518 | the first project with the name; -1 exactly when none has it |
| Store.LastIndexOfID | pkg/config/store.go:343-355 | the last config with the ID, which wins in an ID-keyed map; -1 when none |
| Store.ProjectForwardsIDs | pkg/config/store.go:332-358 | a project resolves to its forwards that exist, in its order |
| Store.ProjectForwardsFromStore | pkg/config/store.go:332-358 | every config a project resolves to is one of the store's |
| Store.NonEmptyProjectsCounts | pkg/config/store.go:577-601 | every non-empty project is kept with its multiplicity and every empty one is dropped |
| Store.KeepKnownEverywhereSound | pkg/config/store.go:605-649 | after the integrity clean-up every forward names a config |
| Store.WithoutEverywhereSound | pkg/config/store.go:549-574 | after a removal no project mentions the removed ID |
| Store.CheckIDs | pkg/config/store.go:239-252 | no error exactly when the ID rules hold, and then the collected set is the ID set; an error is that of the first config that fails: its index when the ID is empty, else the ID when untrimmed, else the ID when an earlier config has it |
| Store.CheckProjects | pkg/config/store.go:254-274 | no error exactly when the project rules hold; an error is that of the first project that fails: its index when the name is empty, else the name when untrimmed, else the name when an earlier project has it, else the name and its first forward outside the known IDs |
| Store.FilterProjects | pkg/config/store.go:617-631 | each project keeps its known forwards, and one issue is reported per unknown forward |
| Store.ConfigStore.constructor | pkg/config/store.go:60-72 | a store holding the given configs and projects, with no previous lists and no active project |
| Store.ConfigStore.Get | pkg/config/store.go:101-108 | the config at an index in range, none otherwise |
| Store.ConfigStore.GetWithError | pkg/config/store.go:111-118 | the config at an index in range, ErrConfigNotFound with the index and length otherwise |
| Store.ConfigStore.GetIndexByID | pkg/config/store.go:374-384 | found exactly when some config has the ID; then the first such index |
| Store.ConfigStore.ValidateConfig | pkg/config/store.go:238-277 | no error exactly when IDs are non-empty, trimmed and distinct, project names likewise, and every forward names a config |
| Store.ConfigStore.LoadFromDisk | pkg/config/store.go:180-234 | a missing file clears the configs and keeps the projects; a directory, stat, read or parse failure gives its error and changes nothing; a parsed file is installed (the legacy list when the new one is empty), then the first config without an ID is MigrationRequired at that index, and any other rejection is ValidationFailed on an invalid store, with the file left installed |
| Store.ConfigStore.Reload | pkg/config/store.go:122-161 | a failed load restores the previous lists; success keeps the active project only when a project of its name remains |
| Store.ConfigStore.SetActiveProject | pkg/config/store.go:298-317 | "" clears; a known name selects that project; an unknown name is an error and changes nothing |
| Store.ConfigStore.SetActiveProjectUnsafe | pkg/config/store.go:320-328 | selects the first project with the name when there is one |
| Store.ConfigStore.ClearActiveProject | pkg/config/store.go:526-532 | no project is active afterwards |
| Store.ConfigStore.GetActiveProjectName | pkg/config/store.go:535-543 | the active project's name, "" when none |
| Store.ConfigStore.GetActiveProjectForwards | pkg/config/store.go:332-358 | all configs when no project is active; otherwise the active project's forwards that exist, in its order |
| Store.ConfigStore.CreateProject | pkg/config/store.go:389-430 | a blank or taken trimmed name and an unknown ID are refused; otherwise the project is appended |
| Store.ConfigStore.UpdateProject | pkg/config/store.go:433-469 | a missing project or an unknown ID is refused; otherwise only that project's forwards change |
| Store.ConfigStore.DeleteProject | pkg/config/store.go:472-499 | a missing name is an error; otherwise the first project of that name is gone, the rest keep their order, and an active project of that name is cleared |
| Store.ConfigStore.RemovePortForwardFromProjects | pkg/config/store.go:549-574 | every project loses the ID; the active project is cleared when its forwards become empty |
| Store.ConfigStore.CleanupEmptyProjects | pkg/config/store.go:577-601 | the empty projects are dropped and counted; an active project among them is cleared |
| Store.ConfigStore.ValidateProjectIntegrity | pkg/config/store.go:605-649 | unknown forwards are removed and reported; an active project naming one is cleared |
| UITypes.Model.constructor | pkg/ui/model.go:378-390 | a new model shows the port-forward view with grouping on, no filter, no group states and no project |
| UIDiscovery.DetectServiceTypeFromInfo | pkg/ui/update_discovery.go:629-668 | a label, else a common type in the lower-cased name, else the sanitized Kubernetes type, else "service" |
| UIDiscovery.TypeFromInfoIgnoresCase | pkg/ui/update_discovery.go:654-659 | the name is matched regardless of ASCII case |
| UIDiscovery.PortIDParts | pkg/ui/update_discovery.go:613-626 | a port ID splits at its dots into the sanitized context, the type and a discriminator carrying the port number |
| UIDiscovery.GenerateServicePortID | pkg/ui/update_discovery.go:613-626 | the loop-free ID builder computes that port ID |
| UIDiscovery.MatchingPortsCounts | pkg/ui/update_discovery.go:503-522 | the filter keeps exactly the rows whose lower-cased name, namespace, type, port name or port number contains the text |
| UIDiscovery.FilterPortsFromList | pkg/ui/update_discovery.go:503-522 | every filtered row is a row of the full list |
| UIDiscovery.ApplyDiscoveryPortFilter | pkg/ui/update_discovery.go:503-522 | the filter loop returns the matching rows in order |
| UIDiscovery.Target | pkg/ui/update_discovery.go:470-492 | the full-list row the cursor designates, found by ID when filtered; -1 past the shown rows |
| UIDiscovery.ResolveCursor | pkg/ui/update_discovery.go:470-492 | the lookup computes that target |
| UIDiscovery.HandleServiceToggle | pkg/ui/update_discovery.go:467-500 | flips Selected of exactly the designated row; a cursor past the rows is an error and changes nothing |
| UIDiscovery.ScanFormatRoundTrip | pkg/ui/update_discovery.go:794 | scanning what `%d` printed gives the number back |
| UIDiscovery.ScanIntStopsAtNonDigit | pkg/ui/update_discovery.go:794 | `%d` gathers decimal digits only: "80_80" and "80 80" both scan as 80, the rest ignored |
| UIDiscovery.HandleDiscoveryEditStart | pkg/ui/update_discovery.go:699-752 | edit mode starts on the designated row unless it is an existing configuration |
| UIDiscovery.StartLocalPortEdit | pkg/ui/update_discovery.go:99-131 | a cursor designating no row is "Invalid port selection"; an existing configuration row is refused with its message; any other row enters edit mode on that row, with its local port as the input text and the error cleared |
| UIDiscovery.HandleDiscoveryEditConfirm | pkg/ui/update_discovery.go:784-821 | only a non-empty input whose leading sign and digits scan to a port in 1..65535 is stored (text after the digits is ignored), on the row being edited, and ends edit mode; each refusal sets its own error and keeps the rows and edit mode |
| UIDiscovery.EditUnchangedKeepsPort | pkg/ui/update_discovery.go:784-821 | confirming the starting text keeps a valid local port unchanged |
| UIDiscovery.SelectionsMatchConfigs | pkg/ui/update_discovery.go:303-349 | a row is pre-selected exactly when a config of the cluster forwards that port, and then carries that config's index and local port |
| UIDiscovery.BuildPortSelections | pkg/ui/update_discovery.go:303-349 | the loop builds one row per service port, in order |
| UIDiscovery.HandleClusterSelection | pkg/ui/update_discovery.go:260-360 | a cursor past the clusters is refused; otherwise the cluster is recorded; a discovery error or no services is reported with the status left at "Discovering services in cluster '<c>'..."; otherwise the rows and existing keys are the ones described above and the status gives the port count |
| UIDiscovery.AsWrittenDeletesWrongRow | pkg/ui/update_discovery.go:533-555 | as written, deselecting a and b deletes a and c and keeps b |
| UIDiscovery.ResolvedDeletesDeselected | pkg/ui/update_discovery.go:533-555 | resolved against the snapshot, the same rows delete a and b and keep c |
| UIDiscovery.ResolvedRemovesExactlyDeselected | pkg/ui/update_discovery.go:528-602 | a config survives exactly when its ID was not deselected; every other row is a selected new config |
| UIDiscovery.StatusTextNoChanges | pkg/ui/update_discovery.go:581-602 | "No changes made" exactly when nothing was added or removed; otherwise a "Port forwards: " line with the counts |
| UIDiscovery.ConfirmRow | pkg/ui/update_discovery.go:534-578 | a deselected existing row deletes the config at its index in the rows it is given to look up, and its project memberships; a selected new row adds its config, a failure only records its message, and every other row changes nothing |
| UIDiscovery.ConfirmAll | pkg/ui/update_discovery.go:533-579 | as written, the loop applies the rows in order, each deselected row's index looked up in the rows the earlier rows left |
| UIDiscovery.HandleServiceSelectionConfirm | pkg/ui/update_discovery.go:525-608 | applies the as-written confirm loop to the store and reports its counts |
| UIProjects.StopAllRunningPortForwards | pkg/ui/update_projects.go:155-174 | afterwards no index of the config list runs; the count is the number of clean kills |
| UIProjects.StartForward | pkg/ui/update_projects.go:184-231 | an unknown ID is reported, a running index counts as started, otherwise Start's outcome counts or is reported |
| UIProjects.StartProjectPortForwards | pkg/ui/update_projects.go:178-236 | every unknown ID is reported; every known forward is running or reported; nothing else stops |
| UIProjects.ActivateAndStart | pkg/ui/update_projects.go:117-133 | a project with a name becomes active, only its configs run, every forward is started or reported, and the status or error text gives the outcome |
| UIProjects.HandleProjectSelection | pkg/ui/update_projects.go:104-142 | every config's forward is stopped first; row 0 clears the project and says so in the status; row k activates projects[k-1] and starts its forwards: the started count plus the errors is the number of forwards, only the project's configs run, and the status gives the count started, or the error gives the counts and the first failure; a row past the list changes no message; the view returns to the table |
| UIProjectManagement.WithoutProject | pkg/config/store.go:472-499 | the first project of the name is gone and the rest keep their order |
| UIProjectManagement.AddServiceToProject | pkg/ui/update_project_management.go:350-374 | the ID is appended and the project is recreated; the edited copy changes only on success |
| UIProjectManagement.RemoveServiceFromProject | pkg/ui/update_project_management.go:377-413 | every copy of the ID is dropped and the project recreated; an absent ID changes nothing |
| UIProjectManagement.ToggleRoundTrip | pkg/ui/update_project_management.go:299-347 | removing an ID just appended to a list without it gives the list back |
| UIProjectManagement.ToggleServiceInProject | pkg/ui/update_project_management.go:299-347 | a member leaves the project and a non-member joins it; the store's projects and active project are those of deleting the project and recreating it with the new forwards; a missing project or a cursor off the list changes neither |
| UIProjectManagement.CreateProject | pkg/ui/update_project_management.go:169-201 | a blank or taken trimmed name is refused with its error, keeping the projects, view, status and input; otherwise an empty project of that name is appended, the status says so, the input is cleared, the error is kept and the view returns to project management |
| UIProjectManagement.CreatedProjectFound | pkg/ui/update_project_management.go:169-201 | a project just created is the one a lookup by its name finds, at the end |
| UIProjectManagement.DeleteSelectedProject | pkg/ui/update_project_management.go:416-453 | row 0 deletes nothing; row k deletes projects[k-1] and clears it first if active |
| UIModelHelpers.IndexedItems | pkg/ui/model_helpers.go:24-40 | a shown config gets a row exactly when its ID is in the store, with the first such index |
| UIModelHelpers.OriginalIndex | pkg/ui/model_helpers.go:28-35 | the inner loop finds the first config with the ID, or -1 |
| UIModelHelpers.RowsOf | pkg/ui/model_helpers.go:21-56 | the row loop produces the plain rows of the indexed configs |
| UIModelHelpers.GeneratePortForwardRows | pkg/ui/model_helpers.go:14-57 | the rows of the active project's forwards, or of the given configs while filtering, with running status by original index |
| UIModelHelpers.GroupsOfIsInGroup | pkg/ui/model_helpers.go:80-104 | the groups are exactly the items' keys (the context, or "(no context)"), each holding its items in order, never empty |
| UIModelHelpers.SortedNamesFacts | pkg/ui/model_helpers.go:106-111 | the sorted names are the group keys in strictly increasing order |
| UIModelHelpers.SortNames | pkg/ui/model_helpers.go:106-111 | the sort produces the sorted names |
| UIModelHelpers.BuildGroups | pkg/ui/model_helpers.go:78-104 | the grouping loop builds the groups of the indexed configs |
| UIModelHelpers.ActiveCount | pkg/ui/model_helpers.go:124-134 | at most the group size; zero exactly when none runs; the size exactly when all run |
| UIModelHelpers.StatesAfter | pkg/ui/model_helpers.go:113-134 | each group's state counts its items and running items; a new group starts expanded; other states are kept |
| UIModelHelpers.RefreshStates | pkg/ui/model_helpers.go:113-134 | the two state loops compute those states |
| UIModelHelpers.GroupedView | pkg/ui/model_helpers.go:60-201 | the group states, enhanced rows and table rows of the grouped view |
| UIModelHelpers.GenerateGroupedRows | pkg/ui/model_helpers.go:60-201 | grouping off gives the plain rows and changes no state; grouping on stores the refreshed states and the header and item rows of the sorted groups |
| UIModelHelpers.AllRowsHeaders | pkg/ui/model_helpers.go:136-198 | the header rows name the groups in sorted order |
| UIModelHelpers.GroupHeadersInOrder | pkg/ui/model_helpers.go:106-198 | one header per group, in strictly increasing order |
| UIModelHelpers.AllRowsShape | pkg/ui/model_helpers.go:136-198 | a header shows its group's arrow and counts; an item belongs to an expanded group and carries a config index |
| UIModelHelpers.AllRowsShowExpanded | pkg/ui/model_helpers.go:136-198 | every item of an expanded group is shown |
| UIModelHelpers.GroupedItemsPointToConfigs | pkg/ui/model_helpers.go:136-198 | an item row's index is in range and names a shown config of that group |
| UIModelHelpers.TargetIndexFrom | pkg/ui/model_helpers.go:221-229 | the first config with the same context, namespace and service; -1 exactly when none |
| UIModelHelpers.SelectedGroupName | pkg/ui/model_helpers.go:258-264 | the selected row's group name, "" off the table |
| UIModelHelpers.GetConfigIndexFromTableRow | pkg/ui/model_helpers.go:204-246 | grouped: a cursor off the rows or on a header is an error, an item gives its index; ungrouped: the cursor or its filtered config's first match, else an error |
| UIModelHelpers.ShownRowIndex | pkg/ui/model_helpers.go:14-57 | the config index of the row under the cursor as the unfiltered rows were built: a config with that row's ID, an error off the rows |
| UIModelHelpers.ProjectRowDesignatesOtherConfig | pkg/ui/model_helpers.go:17-19 | with a project of the second config active, row 0 shows config 1, while the code's cursor designates config 0 |
| UIModelHelpers.ShownRowIndexWithoutProject | pkg/ui/model_helpers.go:228-232 | with every config shown and IDs distinct, the row index is the cursor, as the code returns |
| UIModel.CalculateColumnWidths | pkg/ui/model.go:208-289 | six columns in display order, each at least its minimum, filling the available width up to less than one per column |
| UIModel.ExpandByPriority | pkg/ui/model.go:243-270 | the priority pass moves extra space into the columns without losing any |
| UIModel.SpreadRemainder | pkg/ui/model.go:272-278 | the even split adds at most the remainder and less than one per column short of it |
| UIModel.ProjectSelectorColumns | pkg/ui/model.go:81-97 | the project column is at least 15 wide and the columns fill the available width |
| UIModel.ProjectManagementColumns | pkg/ui/model.go:100-120 | both columns are at least 15 wide, the project column no wider, and they fill the width |
| UIModel.ServiceSelectionColumns | pkg/ui/model.go:123-150 | the fixed columns keep their sizes, the others their minimums, and they fill the width |
| UIModel.ClusterSelectionColumns | pkg/ui/model.go:153-167 | one column at least 15 wide filling the width |
| UIModel.DiscoveryServiceColumns | pkg/ui/model.go:170-205 | the minimums hold; the total is the width or one more, and exactly the width from 59 columns up |
| UIModel.HandleWindowSize | pkg/ui/model.go:418-472 | the size is stored; the table height and filter width are clamped to their minimums |
| UIModel.MatchingConfigsCounts | pkg/ui/model.go:511-541 | the filter keeps exactly the matching configs with their multiplicity |
| UIModel.MatchingEmptyKeepsAll | pkg/ui/model.go:511-541 | the empty text matches every config |
| UIModel.FilterConfigs | pkg/ui/model.go:511-541 | blank text keeps the base list; otherwise a config is kept exactly when it matches |
| UIModel.ApplyFilter | pkg/ui/model.go:511-541 | the filtered list is set to the filter of the active project's configs |
| UIModel.FormatRestartSummary | pkg/ui/model.go:569-589 | the failures joined with "; ", else no running forwards when none restarted, else the restart count |
| UIModel.FailureNamesService | pkg/ui/model.go:573-578 | a failure with a known index names that config's service |

## Left out

- Process execution, stderr capture, `isPortAvailable`'s socket probe and process kills are parameters. The mutex and its release and re-acquire inside `Start` are not modelled; each method is atomic.
- `startInternal` is not modelled: nothing in the modelled code calls it.
- main.go's `handlePruneCommand`, `wildcardMatch` and `getContextDisplay` (main.go:100-221) are line for line the same as those of pkg/cmd/prune.go. They are modelled once, by the `Prune` members.
- YAML reading and writing, the config path, directory creation and the file-system error texts are not modelled. `ErrorText` omits the file path and the operating-system error.
- The SQLite schema, transactions, the projects tables and `Close` are not modelled. The rows are a list kept in `GetAll` order.
- Sqlite.Add: a duplicate ID is the `DuplicateID` error; the driver's "failed to add port forward" text wrapping the constraint error is not modelled.
- Sqlite.Add: rows with equal context, namespace and service keep insertion order. SQL leaves the order among equal keys unspecified, so this order is an assumption of the model.
- kubectl's JSON output and its parsing are not modelled, nor is the float `TargetPort`. Discovery takes the parsed names and services as parameters.
- `RunDiscovery`, `selectServices`, `outputConfiguration`, `handleDiscoverCommand` and the help texts are not modelled. They are interactive I/O and printing.
- Rendering is not modelled: all `View*` and `render*` functions, lipgloss styles and the bubbles table widget.
- `refreshTable` and `NewModel`'s widget set-up are not modelled, and neither is the message dispatch of `Update` beyond the resize branch. `openInBrowser` is also left out.
- `Update`'s resize of the other tables' heights is not modelled; only the port-forward table height and the filter width are.
- `handlePortForwardsRestart` and `RestartRunningForwards` are not modelled; the latter is not part of this model. `FormatRestartSummary` takes the list of failures as a parameter. Go iterates that map in random order, so the order of the joined texts is the order given.
- UIDiscovery.HandleServiceSelectionConfirm: the loop runs on a value that carries the rows and projects. Each row's `Get` reads the rows as the earlier rows left them, and the store, error message and status are written back once after the loop. Nothing else reads them between rows, so the outcome is the same. The debug logging and the always-zero `updatedCount` are left out.
- UIModel.ApplyFilter: a nil `filteredConfigs` and an empty one are not distinguished; both are `Some([])`. Go's list is nil when the filter text is blank and the active project has no known forwards; `getConfigIndexFromTableRow` then falls back to `GetAll` and maps the cursor into the full list, while the model refuses every cursor.
- GoStrings.ToLower: only ASCII letters are folded; Unicode case folding is not modelled.
- UIModel.DiscoveryServiceColumns: below 59 columns the source's columns total one more than the available width, and the contract states that rather than equality.
- UIProjectManagement.AddServiceToProject and RemoveServiceFromProject:
  - the source deletes and recreates the project, so in the modelled in-memory store it moves to the end of the list and loses the active selection; the SQLite store the UI opens lists projects by name, so there it keeps its alphabetical place;
  - when the recreate fails the project is gone;
  - the contracts state exactly this.

## Findings

| source | as written | input that shows it | evidently intended | confidence | as-written member | corrected member |
|---|---|---|---|---|---|---|
| pkg/ui/update_discovery.go:533-555 | deselected rows are deleted with `configStore.Get(ExistingConfigIndex)`, looked up after the deletes made by earlier rows | three existing rows a, b, c with distinct IDs; deselect a and b | delete exactly the configs the user deselected | not executed | UIDiscovery.AsWrittenDeletesWrongRow | UIDiscovery.ResolvedRemovesExactlyDeselected |
| pkg/ui/model_helpers.go:212-232 | with grouping off and no filter, the cursor is returned as an index into `GetAll`, while the rows show only the active project's forwards | configs a, b; a project holding only b is active; cursor on row 0 | the config of the row under the cursor | not executed | UIModelHelpers.ProjectRowDesignatesOtherConfig | UIModelHelpers.ShownRowIndex |

In the first input, index 1 designates c once a is gone, so c is deleted and b is kept. In the second, row 0 shows b but stopping or editing it acts on a. `GetConfigIndexFromTableRow` models the code as written; `ShownRowIndex` is the intended index, and `ShownRowIndexWithoutProject` shows the two agree when no project narrows the rows.
