/** The layout arithmetic and the text filter of the terminal UI
    (pkg/ui/model.go): column widths for every table, the sizes clamped on
    a resize, the port-forward filter and the restart summary. Widths are
    Go ints on values that stay far from overflow; the percentages are
    taken of non-negative numbers, where Go's truncating division and
    Dafny's Euclidean one agree. */
module UIModel {
  import opened Common
  import opened GoStrings
  import opened UITypes
  import Store

  const ColContext := "CONTEXT"
  const ColNamespace := "NAMESPACE"
  const ColService := "SERVICE"
  const ColPortRemote := "REMOTE"
  const ColPortLocal := "LOCAL"
  const ColStatus := "STATUS"

  const MinTableHeight := 4
  const PortForwardsViewOffset := 8

  function Max(a: int, b: int): (r: int)
    ensures r >= a && r >= b && (r == a || r == b)
  {
    if a >= b then a else b
  }

  /** The widths of the columns added up. */
  function TotalWidth(cols: seq<Column>): int {
    if cols == [] then 0 else cols[0].Width + TotalWidth(cols[1..])
  }

  /** TotalWidth written out for the table sizes used here. */
  lemma TotalWidthOf(cols: seq<Column>)
    requires 2 <= |cols| <= 6
    ensures |cols| == 2 ==> TotalWidth(cols) == cols[0].Width + cols[1].Width
    ensures |cols| == 3 ==> TotalWidth(cols) == cols[0].Width + cols[1].Width + cols[2].Width
    ensures |cols| == 5 ==> TotalWidth(cols) == cols[0].Width + cols[1].Width + cols[2].Width + cols[3].Width + cols[4].Width
    ensures |cols| == 6 ==>
      TotalWidth(cols) == cols[0].Width + cols[1].Width + cols[2].Width + cols[3].Width + cols[4].Width + cols[5].Width
  {
    var n := |cols|;
    assert cols[0..] == cols;
    assert cols[n..] == [];
    var i := 0;
    while i < n
      invariant 0 <= i <= n
      invariant forall j :: 0 <= j < i ==> TotalWidth(cols[j..]) == cols[j].Width + TotalWidth(cols[j + 1..])
    {
      assert cols[i..][1..] == cols[i + 1..];
      i := i + 1;
    }
  }

  // ---------------------------------------------------------------------
  // The port-forwards table

  /** The minimum width of each port-forwards column. */
  function MinWidth(col: string): int {
    if col == ColContext then 8
    else if col == ColNamespace then 9
    else if col == ColService then 7
    else if col == ColPortRemote then 6
    else if col == ColPortLocal then 5
    else if col == ColStatus then 7
    else 0
  }

  /** The columns in the order they are shown. */
  const ShownOrder := [ColContext, ColNamespace, ColService, ColPortRemote, ColPortLocal, ColStatus]

  /** The order in which the extra width is handed out. */
  const ExpandPriority := [ColService, ColNamespace, ColContext, ColStatus, ColPortRemote, ColPortLocal]

  /** The share of the remaining width a column takes, in percent. */
  function SharePercent(col: string): int {
    if col == ColService then 35
    else if col == ColNamespace then 30
    else if col == ColContext then 20
    else if col == ColStatus then 10
    else 2
  }

  /** A column's share of the remaining width: never more than what is
      left. */
  function ExtraFor(col: string, remaining: int): (r: int)
    requires remaining >= 0
    ensures 0 <= r <= remaining
  {
    remaining * SharePercent(col) / 100
  }

  /** The even split of the last remainder over six columns loses less
      than six. */
  lemma SplitEvenly(r: int)
    requires r > 0
    ensures r - 6 < 6 * (r / 6) <= r
  {
  }

  predicate HasAll(widths: map<string, int>) {
    forall c :: c in ShownOrder ==> c in widths
  }

  function Total(widths: map<string, int>): int
    requires HasAll(widths)
  {
    widths[ColContext] + widths[ColNamespace] + widths[ColService]
    + widths[ColPortRemote] + widths[ColPortLocal] + widths[ColStatus]
  }

  predicate AtLeastMinimum(widths: map<string, int>)
    requires HasAll(widths)
  {
    forall c :: c in ShownOrder ==> widths[c] >= MinWidth(c)
  }

  /** Widening one shown column by extra keeps every column and every
      minimum, and adds extra to the total. */
  lemma WidenColumn(widths: map<string, int>, col: string, extra: int)
    requires HasAll(widths) && AtLeastMinimum(widths) && col in ShownOrder && extra >= 0
    ensures HasAll(widths[col := widths[col] + extra])
    ensures AtLeastMinimum(widths[col := widths[col] + extra])
    ensures Total(widths[col := widths[col] + extra]) == Total(widths) + extra
  {
  }

  /** The priority loop of calculateColumnWidths: each column in priority
      order takes its share of what is left, until nothing is left. */
  method ExpandByPriority(widths: map<string, int>, extraSpace: int)
    returns (finalWidths: map<string, int>, remainingSpace: int)
    requires HasAll(widths) && AtLeastMinimum(widths) && extraSpace >= 0
    ensures HasAll(finalWidths) && AtLeastMinimum(finalWidths)
    ensures remainingSpace >= 0
    ensures Total(finalWidths) + remainingSpace == Total(widths) + extraSpace
  {
    finalWidths := widths;
    remainingSpace := extraSpace;
    var i := 0;
    while i < |ExpandPriority|
      invariant 0 <= i <= |ExpandPriority|
      invariant HasAll(finalWidths) && AtLeastMinimum(finalWidths)
      invariant remainingSpace >= 0
      invariant Total(finalWidths) + remainingSpace == Total(widths) + extraSpace
    {
      if remainingSpace <= 0 {
        break;
      }
      var col := ExpandPriority[i];
      var extraForCol := ExtraFor(col, remainingSpace);
      if extraForCol > remainingSpace {
        extraForCol := remainingSpace;
      }
      WidenColumn(finalWidths, col, extraForCol);
      finalWidths := finalWidths[col := finalWidths[col] + extraForCol];
      remainingSpace := remainingSpace - extraForCol;
      i := i + 1;
    }
  }

  /** The last step of calculateColumnWidths: what is still left is split
      evenly over the six columns. */
  method SpreadRemainder(widths: map<string, int>, remainingSpace: int) returns (finalWidths: map<string, int>)
    requires HasAll(widths) && AtLeastMinimum(widths) && remainingSpace > 0
    ensures HasAll(finalWidths) && AtLeastMinimum(finalWidths)
    ensures Total(widths) + remainingSpace - 6 < Total(finalWidths) <= Total(widths) + remainingSpace
  {
    finalWidths := widths;
    var extraPerCol := remainingSpace / 6;
    SplitEvenly(remainingSpace);
    ghost var added := 0;
    var j := 0;
    while j < |ShownOrder|
      invariant 0 <= j <= |ShownOrder|
      invariant HasAll(finalWidths) && AtLeastMinimum(finalWidths)
      invariant added == j * extraPerCol
      invariant Total(finalWidths) == Total(widths) + added
    {
      var col := ShownOrder[j];
      WidenColumn(finalWidths, col, extraPerCol);
      finalWidths := finalWidths[col := finalWidths[col] + extraPerCol];
      assert (j + 1) * extraPerCol == j * extraPerCol + extraPerCol;
      added := added + extraPerCol;
      j := j + 1;
    }
  }

  /** calculateColumnWidths: every column gets at least its minimum, and the
      widths fill the available width max(width - 8, 60) up to what the
      even split of the last remainder into six loses (less than six). */
  method CalculateColumnWidths(width: int) returns (cols: seq<Column>)
    ensures |cols| == 6
    ensures forall k :: 0 <= k < 6 ==> cols[k].Title == ShownOrder[k] && cols[k].Width >= MinWidth(ShownOrder[k])
    ensures Max(width - 8, 60) - 6 < TotalWidth(cols) <= Max(width - 8, 60)
  {
    var minWidths := map[ColContext := 8, ColNamespace := 9, ColService := 7,
                         ColPortRemote := 6, ColPortLocal := 5, ColStatus := 7];
    var availableWidth := Max(width - 8, 60);
    var totalMinWidth := 42;
    var extraSpace := Max(availableWidth - totalMinWidth, 0);
    assert Total(minWidths) == totalMinWidth;

    var finalWidths, remainingSpace := ExpandByPriority(minWidths, extraSpace);
    if remainingSpace > 0 {
      finalWidths := SpreadRemainder(finalWidths, remainingSpace);
    }

    cols := ColumnsOf(finalWidths);
  }

  /** The six columns in the order they are shown, with their widths. */
  function ColumnsOf(widths: map<string, int>): (cols: seq<Column>)
    requires HasAll(widths) && AtLeastMinimum(widths)
    ensures |cols| == 6
    ensures forall k :: 0 <= k < 6 ==> cols[k].Title == ShownOrder[k] && cols[k].Width >= MinWidth(ShownOrder[k])
    ensures TotalWidth(cols) == Total(widths)
  {
    var cols := [Column(ColContext, widths[ColContext]), Column(ColNamespace, widths[ColNamespace]),
                 Column(ColService, widths[ColService]), Column(ColPortRemote, widths[ColPortRemote]),
                 Column(ColPortLocal, widths[ColPortLocal]), Column(ColStatus, widths[ColStatus])];
    TotalWidthOf(cols);
    cols
  }

  // ---------------------------------------------------------------------
  // The other tables

  /** calculateProjectSelectorColumns: PROJECT takes what FORWARDS (8) and
      ACTIVE (6) leave of max(width - 8, 45), and never less than 15. */
  function ProjectSelectorColumns(width: int): (cols: seq<Column>)
    ensures |cols| == 3 && cols[0].Title == "PROJECT" && cols[1].Title == "FORWARDS" && cols[2].Title == "ACTIVE"
    ensures cols[0].Width >= 15 && cols[1].Width == 8 && cols[2].Width == 6
    ensures TotalWidth(cols) == Max(width - 8, 45)
  {
    var availableWidth := Max(width - 8, 45);
    var projectWidth := Max(availableWidth - 8 - 6, 15);
    var cols := [Column("PROJECT", projectWidth), Column("FORWARDS", 8), Column("ACTIVE", 6)];
    TotalWidthOf(cols);
    cols
  }

  /** calculateProjectManagementColumns: of max(width - 8, 50), FORWARDS
      takes 8, PROJECT 40% of the rest and ACTIONS the remainder, each of
      those two at least 15, and PROJECT never wider than ACTIONS. */
  function ProjectManagementColumns(width: int): (cols: seq<Column>)
    ensures |cols| == 3 && cols[0].Title == "PROJECT" && cols[1].Title == "FORWARDS" && cols[2].Title == "ACTIONS"
    ensures cols[0].Width >= 15 && cols[1].Width == 8 && cols[2].Width >= 15
    ensures cols[0].Width <= cols[2].Width
    ensures TotalWidth(cols) == Max(width - 8, 50)
  {
    var availableWidth := Max(width - 8, 50);
    var remainingWidth := availableWidth - 8;
    var projectWidth := remainingWidth * 40 / 100;
    var actionsWidth := remainingWidth - projectWidth;
    var cols := [Column("PROJECT", Max(projectWidth, 15)), Column("FORWARDS", 8), Column("ACTIONS", Max(actionsWidth, 15))];
    TotalWidthOf(cols);
    cols
  }

  /** calculateServiceSelectionColumns: IN PROJECT 10 and PORTS 12; SERVICE,
      NAMESPACE and CONTEXT share the rest of max(width - 8, 60) 40/30/30,
      at least 12, 10 and 10. */
  function ServiceSelectionColumns(width: int): (cols: seq<Column>)
    ensures |cols| == 5
    ensures cols[0] == Column("IN PROJECT", 10) && cols[4] == Column("PORTS", 12)
    ensures cols[1].Title == "SERVICE" && cols[2].Title == "NAMESPACE" && cols[3].Title == "CONTEXT"
    ensures cols[1].Width >= 12 && cols[2].Width >= 10 && cols[3].Width >= 10
    ensures TotalWidth(cols) == Max(width - 8, 60)
  {
    var availableWidth := Max(width - 8, 60);
    var remainingWidth := availableWidth - 10 - 12;
    var serviceWidth := remainingWidth * 40 / 100;
    var namespaceWidth := remainingWidth * 30 / 100;
    var contextWidth := remainingWidth - serviceWidth - namespaceWidth;
    var cols := [Column("IN PROJECT", 10), Column("SERVICE", Max(serviceWidth, 12)), Column("NAMESPACE", Max(namespaceWidth, 10)),
     Column("CONTEXT", Max(contextWidth, 10)), Column("PORTS", 12)];
    TotalWidthOf(cols);
    cols
  }

  /** calculateClusterSelectionColumns: CURRENT 8, CLUSTER the rest of
      max(width - 8, 30), at least 15. */
  function ClusterSelectionColumns(width: int): (cols: seq<Column>)
    ensures |cols| == 2 && cols[0].Title == "CLUSTER" && cols[1] == Column("CURRENT", 8)
    ensures cols[0].Width >= 15
    ensures TotalWidth(cols) == Max(width - 8, 30)
  {
    var availableWidth := Max(width - 8, 30);
    var cols := [Column("CLUSTER", Max(availableWidth - 8, 15)), Column("CURRENT", 8)];
    TotalWidthOf(cols);
    cols
  }

  /** calculateDiscoveryServiceColumns: SEL 4, TYPE 8, REMOTE 6, LOCAL 8;
      SERVICE:PORT and NAMESPACE split the rest of max(width - 8, 50),
      clamped at 0, 60/40, with at least 15 and 8. At the narrowest widths
      the SERVICE:PORT minimum makes the columns one wider than the
      available width; from a width of 59 on they fill it exactly. */
  function DiscoveryServiceColumns(width: int): (cols: seq<Column>)
    ensures |cols| == 6
    ensures cols[0] == Column("SEL", 4) && cols[3] == Column("TYPE", 8)
    ensures cols[4] == Column("REMOTE", 6) && cols[5] == Column("LOCAL", 8)
    ensures cols[1].Title == "SERVICE:PORT" && cols[2].Title == "NAMESPACE"
    ensures cols[1].Width >= 15 && cols[2].Width >= 8
    ensures Max(width - 8, 50) <= TotalWidth(cols) <= Max(width - 8, 50) + 1
    ensures width >= 59 ==> TotalWidth(cols) == width - 8
  {
    var availableWidth := Max(width - 8, 50);
    var fixedWidth := 4 + 6 + 8 + 8;
    var remainingWidth := Max(availableWidth - fixedWidth, 0);
    var serviceWidth := remainingWidth * 60 / 100;
    var namespaceWidth := remainingWidth - serviceWidth;
    var cols := [Column("SEL", 4), Column("SERVICE:PORT", Max(serviceWidth, 15)), Column("NAMESPACE", Max(namespaceWidth, 8)),
     Column("TYPE", 8), Column("REMOTE", 6), Column("LOCAL", 8)];
    TotalWidthOf(cols);
    cols
  }

  // ---------------------------------------------------------------------
  // Resize

  /** The window-size branch of Update, for the fields it sizes: the
      port-forwards table height is the height less the view's other lines,
      never below MinTableHeight, and the filter inputs are the width less 4,
      never below 20. */
  method HandleWindowSize(m: Model, width: int, height: int)
    modifies m`width, m`height, m`portForwardsTableHeight, m`filterInputWidth
    ensures m.width == width && m.height == height
    ensures m.portForwardsTableHeight == Max(height - PortForwardsViewOffset, MinTableHeight)
    ensures m.filterInputWidth == Max(width - 4, 20)
  {
    m.width := width;
    m.height := height;
    var pfTableHeight := m.height - PortForwardsViewOffset;
    if pfTableHeight < MinTableHeight {
      pfTableHeight := MinTableHeight;
    }
    m.portForwardsTableHeight := pfTableHeight;
    var filterWidth := m.width - 4;
    if filterWidth < 20 {
      filterWidth := 20;
    }
    m.filterInputWidth := filterWidth;
  }

  /** The resized table keeps MinTableHeight rows and follows the window
      when it is tall enough; the filter input likewise. */
  lemma ResizeClamps(width: int, height: int)
    ensures Max(height - PortForwardsViewOffset, MinTableHeight) >= MinTableHeight
    ensures height >= PortForwardsViewOffset + MinTableHeight ==>
      Max(height - PortForwardsViewOffset, MinTableHeight) == height - PortForwardsViewOffset
    ensures Max(width - 4, 20) >= 20 && (width >= 24 ==> Max(width - 4, 20) == width - 4)
  {
  }

  // ---------------------------------------------------------------------
  // applyFilter

  /** A config matches a lower-cased filter text when the text occurs in its
      lower-cased context, namespace or service, or its decimal ports. */
  predicate ConfigMatches(cfg: PortForwardConfig, text: string) {
    IsSubstring(text, ToLower(cfg.Context)) || IsSubstring(text, ToLower(cfg.Namespace))
    || IsSubstring(text, ToLower(cfg.Service))
    || IsSubstring(text, FormatInt(cfg.PortRemote)) || IsSubstring(text, FormatInt(cfg.PortLocal))
  }

  /** The matching configs, in list order. */
  function MatchingConfigs(configs: seq<PortForwardConfig>, text: string): (r: seq<PortForwardConfig>)
    ensures |r| <= |configs|
  {
    if configs == [] then []
    else
      var rest := MatchingConfigs(configs[..|configs| - 1], text);
      var cfg := configs[|configs| - 1];
      if ConfigMatches(cfg, text) then rest + [cfg] else rest
  }

  /** The filter keeps exactly the matching configs, each as often as it
      occurs. */
  lemma {:induction false} MatchingConfigsCounts(configs: seq<PortForwardConfig>, text: string, c: PortForwardConfig)
    ensures multiset(MatchingConfigs(configs, text))[c] == if ConfigMatches(c, text) then multiset(configs)[c] else 0
  {
    if configs != [] {
      var init, last := configs[..|configs| - 1], configs[|configs| - 1];
      MatchingConfigsCounts(init, text, c);
      assert configs == init + [last];
      assert multiset(configs)[c] == multiset(init)[c] + (if last == c then 1 else 0);
      if ConfigMatches(last, text) {
        assert MatchingConfigs(configs, text) == MatchingConfigs(init, text) + [last];
      } else {
        assert MatchingConfigs(configs, text) == MatchingConfigs(init, text);
      }
    }
  }

  /** Filtering keeps the list order: filtering a concatenation filters
      each part. */
  lemma {:induction false} MatchingConfigsAppend(a: seq<PortForwardConfig>, b: seq<PortForwardConfig>, text: string)
    ensures MatchingConfigs(a + b, text) == MatchingConfigs(a, text) + MatchingConfigs(b, text)
    decreases |b|
  {
    if b == [] {
      assert a + b == a;
    } else {
      var b' := b[..|b| - 1];
      assert (a + b)[..|a + b| - 1] == a + b';
      assert (a + b)[|a + b| - 1] == b[|b| - 1];
      MatchingConfigsAppend(a, b', text);
    }
  }

  /** The empty text occurs everywhere, so it keeps every config: the blank
      filter's special case agrees with the general one. */
  lemma {:induction false} MatchingEmptyKeepsAll(configs: seq<PortForwardConfig>)
    ensures MatchingConfigs(configs, "") == configs
  {
    if configs != [] {
      MatchingEmptyKeepsAll(configs[..|configs| - 1]);
      assert OccursAt("", ToLower(configs[|configs| - 1].Context), 0);
      assert configs == configs[..|configs| - 1] + [configs[|configs| - 1]];
    }
  }

  /** What applyFilter leaves in filteredConfigs for the filter input's
      value and the base configs. */
  function FilterConfigs(base: seq<PortForwardConfig>, value: string): (r: seq<PortForwardConfig>)
    ensures ToLower(TrimSpace(value)) == "" ==> r == base
    ensures forall c :: c in r <==> c in base && ConfigMatches(c, ToLower(TrimSpace(value)))
  {
    var text := ToLower(TrimSpace(value));
    MatchingEmptyKeepsAll(base);
    forall c
      ensures c in MatchingConfigs(base, text) <==> c in base && ConfigMatches(c, text)
    {
      MatchingConfigsCounts(base, text, c);
    }
    if text == "" then base else MatchingConfigs(base, text)
  }

  /** The base configs applyFilter starts from: those of the active
      project, or all of them. */
  function BaseConfigs(store: Store.ConfigStore): seq<PortForwardConfig>
    reads store
  {
    if store.activeProject.None? then store.configs
    else Store.ProjectForwards(store.configs, store.activeProject.value.Forwards)
  }

  /** applyFilter. */
  method ApplyFilter(m: Model)
    modifies m`filteredConfigs
    ensures m.filteredConfigs == Some(FilterConfigs(BaseConfigs(m.configStore), m.filterValue))
  {
    var filterText := ToLower(TrimSpace(m.filterValue));
    var baseConfigs := m.configStore.GetActiveProjectForwards();
    if filterText == "" {
      m.filteredConfigs := Some(baseConfigs);
      return;
    }
    var filtered := SelectMatching(baseConfigs, filterText);
    m.filteredConfigs := Some(filtered);
  }

  /** The matching loop of applyFilter: the configs whose lower-cased
      context, namespace or service, or a port, contains the text, in order. */
  method SelectMatching(baseConfigs: seq<PortForwardConfig>, filterText: string) returns (filtered: seq<PortForwardConfig>)
    ensures filtered == MatchingConfigs(baseConfigs, filterText)
  {
    filtered := [];
    var i := 0;
    while i < |baseConfigs|
      invariant 0 <= i <= |baseConfigs|
      invariant filtered == MatchingConfigs(baseConfigs[..i], filterText)
    {
      assert baseConfigs[..i + 1][..i] == baseConfigs[..i];
      var cfg := baseConfigs[i];
      if ConfigMatches(cfg, filterText) {
        filtered := filtered + [cfg];
      }
      i := i + 1;
    }
    assert baseConfigs[..|baseConfigs|] == baseConfigs;
  }

  // ---------------------------------------------------------------------
  // formatRestartSummary

  /** One failed restart, in the order the error map was walked. */
  datatype RestartFailure = RestartFailure(index: int, err: string)

  function Join(parts: seq<string>, sep: string): (r: string)
    ensures parts == [] ==> r == ""
    ensures |parts| == 1 ==> r == parts[0]
  {
    if parts == [] then ""
    else if |parts| == 1 then parts[0]
    else Join(parts[..|parts| - 1], sep) + sep + parts[|parts| - 1]
  }

  /** An error line: the service of the config at the index, or the index
      itself when the store has no config there. */
  function FailureText(store: Store.ConfigStore, f: RestartFailure): string
    reads store
  {
    var cfg := store.Get(f.index);
    if cfg.Some? then cfg.value.Service + ": " + f.err
    else "Index " + FormatInt(f.index) + ": " + f.err
  }

  function FailureTexts(store: Store.ConfigStore, failures: seq<RestartFailure>): (r: seq<string>)
    reads store
    ensures |r| == |failures|
    ensures forall k :: 0 <= k < |failures| ==> r[k] == FailureText(store, failures[k])
  {
    if failures == [] then []
    else FailureTexts(store, failures[..|failures| - 1]) + [FailureText(store, failures[|failures| - 1])]
  }

  /** formatRestartSummary, on the failures and the restarted count of a
      restart result: the errors first when there are any, else the count. */
  function FormatRestartSummary(store: Store.ConfigStore, failures: seq<RestartFailure>, restartedCount: int): (r: string)
    reads store
    ensures failures != [] ==>
      HasPrefix(r, "Restart errors: ") && r[|"Restart errors: "|..] == Join(FailureTexts(store, failures), "; ")
    ensures failures == [] && restartedCount == 0 ==> r == "No running port forwards to restart"
    ensures failures == [] && restartedCount != 0 ==> r == "Restarted " + FormatInt(restartedCount) + " port forward(s)"
  {
    if failures != [] then
      var r := "Restart errors: " + Join(FailureTexts(store, failures), "; ");
      assert r[..|"Restart errors: "|] == "Restart errors: ";
      r
    else if restartedCount == 0 then "No running port forwards to restart"
    else "Restarted " + FormatInt(restartedCount) + " port forward(s)"
  }

  /** A failure at an index the store holds names the config's service. */
  lemma FailureNamesService(store: Store.ConfigStore, f: RestartFailure)
    requires 0 <= f.index < |store.configs|
    ensures FailureText(store, f) == store.configs[f.index].Service + ": " + f.err
  {
  }
}
