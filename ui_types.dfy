/** The terminal UI's value types (pkg/ui/types.go) and the part of its
    Model (pkg/ui/model.go) that the list logic reads and updates. The
    handlers of the other UI modules take the Model as their receiver, as
    the Go methods on *Model do. */
module UITypes {
  import opened Common
  import Store
  import PortForward

  /** UIState: which view is shown. */
  datatype UIState =
    | StatePortForwards
    | StateProjectSelector
    | StateServiceDiscovery
    | StateProjectManagement
    | StateProjectCreation
    | StateProjectServiceSelection

  /** GroupState: one context group of the grouped table. */
  datatype GroupState = GroupState(Expanded: bool, Count: int, Active: int)

  datatype RowType = RowTypeGroup | RowTypeItem

  /** TableRow: a displayed row and the config it stands for. */
  datatype TableRow = TableRow(Type: RowType, ConfigIndex: int, GroupName: string, Data: seq<string>)

  datatype DiscoveryPhase = PhaseClusterSelection | PhaseServiceSelection

  datatype ServicePortInfo = ServicePortInfo(Name: string, Port: int, TargetPort: string, Protocol: string)

  /** PortSelection: one port of one discovered service, as offered for
      selection; ExistingConfigIndex is -1 for a port not yet configured. */
  datatype PortSelection = PortSelection(
    ServiceName: string,
    ServiceNamespace: string,
    ServiceType: string,
    ServiceLabels: map<string, string>,
    Port: ServicePortInfo,
    Selected: bool,
    LocalPort: int,
    GeneratedID: string,
    ExistingConfigIndex: int)

  /** A table column and its width. */
  datatype Column = Column(Title: string, Width: int)

  /** The Model fields the modelled handlers use. Widgets are reduced to the
      values read from them (a cursor is a parameter, an input's text a
      field). */
  class Model {
    var uiState: UIState
    var errorMsg: string
    var statusMsg: string
    const configStore: Store.ConfigStore
    const portForwarder: PortForward.PortForwarder
    var width: int
    var height: int

    // grouped table
    var groupStates: map<string, GroupState>
    var tableRows: seq<TableRow>
    var groupingEnabled: bool

    // text filter
    var filterMode: bool
    var filterValue: string
    var filteredConfigs: Option<seq<PortForwardConfig>>   // None is Go's nil slice

    // project management
    var currentProject: Option<Project>
    var projectNameInput: string       // the new-project name input's value

    // service discovery
    var discoveryPhase: DiscoveryPhase
    var discoveryClusters: seq<string>
    var discoverySelectedCluster: int
    var discoveryPorts: seq<PortSelection>
    var discoveryFilterValue: string
    var discoveryExistingServices: set<string>
    var discoveryEditMode: bool
    var discoveryEditIndex: int
    var discoveryEditInput: string     // the local-port text input's value

    // sizes set on resize
    var portForwardsTableHeight: int
    var filterInputWidth: int

    constructor (store: Store.ConfigStore, forwarder: PortForward.PortForwarder)
      ensures configStore == store && portForwarder == forwarder
      ensures uiState == StatePortForwards && errorMsg == "" && statusMsg == ""
      ensures groupStates == map[] && tableRows == [] && groupingEnabled
      ensures filteredConfigs == None && currentProject == None && discoveryPorts == []
    {
      uiState := StatePortForwards;
      errorMsg := "";
      statusMsg := "";
      configStore := store;
      portForwarder := forwarder;
      width := 0;
      height := 0;
      groupStates := map[];
      tableRows := [];
      groupingEnabled := true;
      filterMode := false;
      filterValue := "";
      filteredConfigs := None;
      currentProject := None;
      projectNameInput := "";
      discoveryPhase := PhaseClusterSelection;
      discoveryClusters := [];
      discoverySelectedCluster := 0;
      discoveryPorts := [];
      discoveryFilterValue := "";
      discoveryExistingServices := {};
      discoveryEditMode := false;
      discoveryEditIndex := 0;
      discoveryEditInput := "";
      portForwardsTableHeight := 0;
      filterInputWidth := 0;
    }
  }
}
