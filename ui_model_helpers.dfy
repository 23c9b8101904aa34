/** The port-forwards table rows (pkg/ui/model_helpers.go): a flat list, or
    configs grouped by kube context under collapsible headers, and the
    lookups from a table cursor back to a config index. Rows are the cell
    texts; styling is not modelled. */
module UIModelHelpers {
  import opened Common
  import opened GoStrings
  import PortForward
  import opened UITypes

  const StatusStopped := "Stopped"
  const StatusRunning := "Running"
  const NoContext := "(no context)"

  /** A config to show and its index in the full config list. */
  datatype Item = Item(config: PortForwardConfig, index: int)

  type Running = map<int, PortForward.RunningInfo>

  /** The group of a config: its context, or "(no context)". */
  function GroupKey(cfg: PortForwardConfig): (r: string)
    ensures r != ""
  {
    if cfg.Context == "" then NoContext else cfg.Context
  }

  // ---------------------------------------------------------------------
  // Which configs are shown, and their indices

  /** The configs the table starts from: with no text filter active, those
      of the active project (all configs when none is active); otherwise
      the list the caller passed. */
  function Shown(m: Model, configs: seq<PortForwardConfig>): seq<PortForwardConfig>
    reads m`filterMode, m`filterValue, m.configStore
  {
    if !(m.filterMode || m.filterValue != "") then
      if m.configStore.activeProject.None? then m.configStore.configs
      else Store.ProjectForwards(m.configStore.configs, m.configStore.activeProject.value.Forwards)
    else configs
  }

  /** The shown configs paired with the first index of their ID in all;
      a config whose ID is not in all is skipped. */
  function Indexed(shown: seq<PortForwardConfig>, all: seq<PortForwardConfig>): (r: seq<Item>)
    ensures |r| <= |shown|
  {
    if shown == [] then []
    else
      var rest := Indexed(shown[..|shown| - 1], all);
      var cfg := shown[|shown| - 1];
      var k := IndexOfID(all, cfg.ID);
      if k == -1 then rest else rest + [Item(cfg, k)]
  }

  /** Every item is a shown config at the index of its ID in all, and every
      shown config whose ID is in all has its item. */
  lemma {:induction false} IndexedItems(shown: seq<PortForwardConfig>, all: seq<PortForwardConfig>)
    ensures forall it :: it in Indexed(shown, all) ==>
      it.config in shown && 0 <= it.index < |all| && it.index == IndexOfID(all, it.config.ID)
    ensures forall k :: 0 <= k < |shown| && shown[k].ID in IDs(all) ==>
      Item(shown[k], IndexOfID(all, shown[k].ID)) in Indexed(shown, all)
  {
    if shown != [] {
      var init := shown[..|shown| - 1];
      IndexedItems(init, all);
      forall k | 0 <= k < |shown| - 1
        ensures shown[k] == init[k]
      {
      }
    }
  }

  /** The loop that looks a config up in the full list by ID. */
  method OriginalIndex(all: seq<PortForwardConfig>, id: string) returns (index: int)
    ensures index == IndexOfID(all, id)
  {
    index := -1;
    var j := 0;
    while j < |all|
      invariant 0 <= j <= |all|
      invariant forall k :: 0 <= k < j ==> all[k].ID != id
    {
      if all[j].ID == id {
        index := j;
        break;
      }
      j := j + 1;
    }
  }

  // ---------------------------------------------------------------------
  // Flat rows

  function StatusText(index: int, running: Running): string {
    if index in running then StatusRunning else StatusStopped
  }

  /** The cells of a row in the ungrouped table. */
  function PlainRow(it: Item, running: Running): seq<string> {
    [it.config.Context, it.config.Namespace, it.config.Service,
     FormatInt(it.config.PortRemote), FormatInt(it.config.PortLocal), StatusText(it.index, running)]
  }

  function PlainRows(items: seq<Item>, running: Running): (r: seq<seq<string>>)
    ensures |r| == |items|
    ensures forall k :: 0 <= k < |items| ==> r[k] == PlainRow(items[k], running)
  {
    if items == [] then [] else PlainRows(items[..|items| - 1], running) + [PlainRow(items[|items| - 1], running)]
  }

  /** One config of the row-building loop: a config whose ID is known
      adds its row. */
  method RowOfConfig(rows: seq<seq<string>>, cfg: PortForwardConfig, all: seq<PortForwardConfig>, running: Running,
                     ghost shown: seq<PortForwardConfig>)
    returns (rows': seq<seq<string>>)
    requires rows == PlainRows(Indexed(shown, all), running)
    ensures rows' == PlainRows(Indexed(shown + [cfg], all), running)
  {
    IndexedSnoc(shown, cfg, all);
    rows' := rows;
    var index := OriginalIndex(all, cfg.ID);
    if index != -1 {
      var it := Item(cfg, index);
      ghost var items := Indexed(shown, all);
      assert (items + [it])[..|items|] == items;
      rows' := rows + [PlainRow(it, running)];
    }
  }

  /** The row-building loop of generatePortForwardRows over the configs to
      show: one row per config whose ID is known, in order. */
  method RowsOf(actual: seq<PortForwardConfig>, all: seq<PortForwardConfig>, running: Running)
    returns (rows: seq<seq<string>>)
    ensures rows == PlainRows(Indexed(actual, all), running)
  {
    rows := [];
    var i := 0;
    while i < |actual|
      invariant 0 <= i <= |actual|
      invariant rows == PlainRows(Indexed(actual[..i], all), running)
    {
      assert actual[..i + 1] == actual[..i] + [actual[i]];
      rows := RowOfConfig(rows, actual[i], all, running, actual[..i]);
      i := i + 1;
    }
    assert actual[..|actual|] == actual;
  }

  /** The configs to show, as both row generators choose them: the given
      ones while filtering, otherwise the active project's forwards. */
  method ShownConfigs(m: Model, configs: seq<PortForwardConfig>) returns (actual: seq<PortForwardConfig>)
    ensures actual == Shown(m, configs)
  {
    actual := configs;
    if !(m.filterMode || m.filterValue != "") {
      actual := m.configStore.GetActiveProjectForwards();
    }
  }

  /** generatePortForwardRows: the rows of the configs Shown selects. */
  method GeneratePortForwardRows(m: Model, configs: seq<PortForwardConfig>) returns (rows: seq<seq<string>>)
    ensures rows == PlainRows(Indexed(Shown(m, configs), m.configStore.configs), m.portForwarder.running)
  {
    var actual := ShownConfigs(m, configs);
    rows := RowsOf(actual, m.configStore.configs, m.portForwarder.running);
  }

  // ---------------------------------------------------------------------
  // Grouping

  /** The items of one group, in order. */
  function InGroup(items: seq<Item>, key: string): (r: seq<Item>)
    ensures |r| <= |items|
    ensures forall it :: it in r ==> it in items && GroupKey(it.config) == key
  {
    if items == [] then []
    else
      var rest := InGroup(items[..|items| - 1], key);
      if GroupKey(items[|items| - 1].config) == key then rest + [items[|items| - 1]] else rest
  }

  /** The groups map the Go loop builds: each key's items appended in order. */
  function GroupsOf(items: seq<Item>): map<string, seq<Item>> {
    if items == [] then map[]
    else
      var g := GroupsOf(items[..|items| - 1]);
      var it := items[|items| - 1];
      var key := GroupKey(it.config);
      g[key := (if key in g then g[key] else []) + [it]]
  }

  /** The groups map holds exactly the keys of the items, each with the
      items of that group in order. */
  lemma {:induction false} GroupsOfIsInGroup(items: seq<Item>)
    ensures forall key :: key in GroupsOf(items) <==> exists it :: it in items && GroupKey(it.config) == key
    ensures forall key :: key in GroupsOf(items) ==> GroupsOf(items)[key] == InGroup(items, key) && GroupsOf(items)[key] != []
  {
    if items != [] {
      var init := items[..|items| - 1];
      var last := items[|items| - 1];
      GroupsOfIsInGroup(init);
      assert items == init + [last];
      forall key | key in GroupsOf(items)
        ensures exists it :: it in items && GroupKey(it.config) == key
      {
        if key != GroupKey(last.config) {
          assert key in GroupsOf(init);
          var it :| it in init && GroupKey(it.config) == key;
          assert it in items;
        }
      }
      forall key | exists it :: it in items && GroupKey(it.config) == key
        ensures key in GroupsOf(items)
      {
        var it :| it in items && GroupKey(it.config) == key;
        if it != last {
          assert it in init;
        }
      }
      forall key | key in GroupsOf(items)
        ensures GroupsOf(items)[key] == InGroup(items, key)
      {
        if key == GroupKey(last.config) && key !in GroupsOf(init) {
          assert InGroup(init, key) == [] by {
            if InGroup(init, key) != [] {
              assert InGroup(init, key)[0] in InGroup(init, key);
            }
          }
        }
      }
    }
  }

  // ---------------------------------------------------------------------
  // Group names in sorted order (sort.Strings: byte-wise order, which on
  // UTF-8 text is the order of code points)

  predicate StrictlySorted(s: seq<string>) {
    forall i, j :: 0 <= i < j < |s| ==> LexLess(s[i], s[j])
  }

  predicate IsLeast(x: string, keys: set<string>) {
    x in keys && forall y :: y in keys ==> y == x || LexLess(x, y)
  }

  lemma {:induction false} LeastExists(keys: set<string>)
    requires keys != {}
    ensures exists x :: IsLeast(x, keys)
    decreases |keys|
  {
    var y :| y in keys;
    var rest := keys - {y};
    if rest == {} {
      forall z | z in keys
        ensures z == y
      {
        assert z !in rest;
      }
      assert IsLeast(y, keys);
    } else {
      LeastExists(rest);
      var m :| IsLeast(m, rest);
      if LexLess(y, m) {
        forall z | z in keys
          ensures z == y || LexLess(y, z)
        {
          if z != y && z != m {
            LexLessTransitive(y, m, z);
          }
        }
        assert IsLeast(y, keys);
      } else {
        LexLessTotal(y, m);
        assert IsLeast(m, keys);
      }
    }
  }

  lemma LeastUnique(x: string, x': string, keys: set<string>)
    requires IsLeast(x, keys) && IsLeast(x', keys)
    ensures x == x'
  {
    if x != x' {
      LexLessTransitive(x, x', x);
      LexLessIrreflexive(x);
    }
  }

  ghost function Least(keys: set<string>): (x: string)
    requires keys != {}
    ensures IsLeast(x, keys)
  {
    LeastExists(keys);
    var x :| IsLeast(x, keys);
    x
  }

  /** The keys in increasing order. */
  ghost function SortedNames(keys: set<string>): seq<string>
    decreases |keys|
  {
    if keys == {} then []
    else [Least(keys)] + SortedNames(keys - {Least(keys)})
  }

  /** SortedNames lists every key once, in increasing order. */
  lemma {:induction false} SortedNamesFacts(keys: set<string>)
    ensures forall x :: x in SortedNames(keys) <==> x in keys
    ensures StrictlySorted(SortedNames(keys))
    ensures |SortedNames(keys)| == |keys|
    decreases |keys|
  {
    if keys != {} {
      var x := Least(keys);
      var s := SortedNames(keys);
      SortedNamesFacts(keys - {x});
      forall i, j | 0 <= i < j < |s|
        ensures LexLess(s[i], s[j])
      {
        if i == 0 {
          assert s[j] in keys - {x};
        }
      }
    }
  }

  /** A non-empty key set's sorted list starts with its least key. */
  lemma SortedNamesHead(keys: set<string>, x: string)
    requires IsLeast(x, keys)
    ensures SortedNames(keys) == [x] + SortedNames(keys - {x})
  {
    LeastUnique(x, Least(keys), keys);
  }

  /** The least key of a non-empty set, found by one pass over it. */
  method LeastKey(keys: set<string>) returns (best: string)
    requires keys != {}
    ensures IsLeast(best, keys)
  {
    best :| best in keys;
    var rest := keys - {best};
    while rest != {}
      invariant rest <= keys && best in keys && best !in rest
      invariant IsLeast(best, keys - rest)
      decreases |rest|
    {
      var y :| y in rest;
      if LexLess(y, best) {
        forall z | z in keys - (rest - {y})
          ensures z == y || LexLess(y, z)
        {
          if z != y && z != best {
            LexLessTransitive(y, best, z);
          }
        }
        best := y;
      } else {
        LexLessTotal(y, best);
      }
      rest := rest - {y};
    }
  }

  /** sort.Strings over the group names: the keys in increasing order. */
  method SortNames(keys: set<string>) returns (names: seq<string>)
    ensures names == SortedNames(keys)
  {
    names := [];
    var rest := keys;
    while rest != {}
      invariant names + SortedNames(rest) == SortedNames(keys)
      decreases |rest|
    {
      var x := LeastKey(rest);
      SortedNamesHead(rest, x);
      names := names + [x];
      rest := rest - {x};
    }
  }

  // ---------------------------------------------------------------------
  // Building the groups map

  /** Indexing one more config appends its item exactly when its ID is known. */
  lemma IndexedSnoc(shown: seq<PortForwardConfig>, cfg: PortForwardConfig, all: seq<PortForwardConfig>)
    ensures IndexOfID(all, cfg.ID) == -1 ==> Indexed(shown + [cfg], all) == Indexed(shown, all)
    ensures IndexOfID(all, cfg.ID) != -1 ==>
      Indexed(shown + [cfg], all) == Indexed(shown, all) + [Item(cfg, IndexOfID(all, cfg.ID))]
  {
    assert (shown + [cfg])[..|shown|] == shown;
  }

  /** Grouping one more item appends it to its group's list. */
  lemma GroupsOfSnoc(items: seq<Item>, it: Item)
    ensures GroupsOf(items + [it]) == GroupsOf(items)[GroupKey(it.config) :=
      (if GroupKey(it.config) in GroupsOf(items) then GroupsOf(items)[GroupKey(it.config)] else []) + [it]]
  {
    assert (items + [it])[..|items|] == items;
  }

  /** One config of the grouping loop: a config whose ID is known joins its
      context's group as an item. */
  method GroupConfig(groups: map<string, seq<Item>>, cfg: PortForwardConfig, all: seq<PortForwardConfig>,
                     ghost shown: seq<PortForwardConfig>)
    returns (g: map<string, seq<Item>>)
    requires groups == GroupsOf(Indexed(shown, all))
    ensures g == GroupsOf(Indexed(shown + [cfg], all))
  {
    IndexedSnoc(shown, cfg, all);
    g := groups;
    var key := if cfg.Context == "" then NoContext else cfg.Context;
    var index := OriginalIndex(all, cfg.ID);
    if index != -1 {
      var it := Item(cfg, index);
      GroupsOfSnoc(Indexed(shown, all), it);
      var prior := if key in groups then groups[key] else [];
      g := groups[key := prior + [it]];
    }
  }

  /** The grouping loop of generateGroupedRows: the items of the configs to
      show whose ID is known, collected per context. */
  method BuildGroups(actual: seq<PortForwardConfig>, all: seq<PortForwardConfig>)
    returns (groups: map<string, seq<Item>>)
    ensures groups == GroupsOf(Indexed(actual, all))
  {
    groups := map[];
    var i := 0;
    while i < |actual|
      invariant 0 <= i <= |actual|
      invariant groups == GroupsOf(Indexed(actual[..i], all))
    {
      assert actual[..i + 1] == actual[..i] + [actual[i]];
      groups := GroupConfig(groups, actual[i], all, actual[..i]);
      i := i + 1;
    }
    assert actual[..|actual|] == actual;
  }

  // ---------------------------------------------------------------------
  // Group states

  /** How many items of a group are running. */
  function ActiveCount(items: seq<Item>, running: Running): (r: nat)
    ensures r <= |items|
    ensures r == 0 <==> forall it :: it in items ==> it.index !in running
    ensures r == |items| <==> forall it :: it in items ==> it.index in running
  {
    if items == [] then 0
    else
      var init := items[..|items| - 1];
      var last := items[|items| - 1];
      assert forall it :: it in items <==> it in init || it == last;
      ActiveCount(init, running) + (if last.index in running then 1 else 0)
  }

  /** The group states after a refresh: every shown group holds its item
      count and how many of them run; a group seen for the first time starts
      expanded; groups not shown keep their old state. */
  function StatesAfter(states: map<string, GroupState>, groups: map<string, seq<Item>>, running: Running)
    : (r: map<string, GroupState>)
    ensures r.Keys == states.Keys + groups.Keys
    ensures forall k :: k in groups ==>
      r[k].Count == |groups[k]| && 0 <= r[k].Active <= r[k].Count
      && r[k].Expanded == (k !in states || states[k].Expanded)
    ensures forall k :: k in states && k !in groups ==> r[k] == states[k]
  {
    map k | k in states.Keys + groups.Keys ::
      if k in groups then
        GroupState(k !in states || states[k].Expanded, |groups[k]|, ActiveCount(groups[k], running))
      else states[k]
  }

  /** The count loop for one group. */
  method CountActive(items: seq<Item>, running: Running) returns (active: nat)
    ensures active == ActiveCount(items, running)
  {
    active := 0;
    var i := 0;
    while i < |items|
      invariant 0 <= i <= |items|
      invariant active == ActiveCount(items[..i], running)
    {
      assert items[..i + 1][..i] == items[..i];
      if items[i].index in running {
        active := active + 1;
      }
      i := i + 1;
    }
    assert items[..|items|] == items;
  }

  // ---------------------------------------------------------------------
  // Grouped rows

  /** A group header: the expand icon and name, then "N total, M active". */
  function HeaderData(name: string, st: GroupState): seq<string> {
    [(if st.Expanded then "▼" else "▶") + " " + name,
     FormatInt(st.Count) + " total, " + FormatInt(st.Active) + " active",
     "", "", "", ""]
  }

  /** An item under a header: no context, the service indented. */
  function ItemData(it: Item, running: Running): seq<string> {
    ["", it.config.Namespace, "  " + it.config.Service,
     FormatInt(it.config.PortRemote), FormatInt(it.config.PortLocal), StatusText(it.index, running)]
  }

  function ItemRows(name: string, items: seq<Item>, running: Running): (r: seq<TableRow>)
    ensures |r| == |items|
    ensures forall k :: 0 <= k < |items| ==>
      r[k] == TableRow(RowTypeItem, items[k].index, name, ItemData(items[k], running))
  {
    if items == [] then []
    else
      var last := items[|items| - 1];
      ItemRows(name, items[..|items| - 1], running) + [TableRow(RowTypeItem, last.index, name, ItemData(last, running))]
  }

  /** One group's rows: its header, then its items when it is expanded. */
  function GroupRows(name: string, items: seq<Item>, st: GroupState, running: Running): seq<TableRow> {
    [TableRow(RowTypeGroup, -1, name, HeaderData(name, st))]
      + (if st.Expanded then ItemRows(name, items, running) else [])
  }

  predicate Described(names: seq<string>, groups: map<string, seq<Item>>, states: map<string, GroupState>) {
    forall k :: 0 <= k < |names| ==> names[k] in groups && names[k] in states
  }

  /** The rows of the groups, in the order of names. */
  function AllRows(names: seq<string>, groups: map<string, seq<Item>>, states: map<string, GroupState>,
                   running: Running): seq<TableRow>
    requires Described(names, groups, states)
  {
    if names == [] then []
    else
      var n := names[|names| - 1];
      AllRows(names[..|names| - 1], groups, states, running) + GroupRows(n, groups[n], states[n], running)
  }

  function DataOf(rows: seq<TableRow>): (r: seq<seq<string>>)
    ensures |r| == |rows|
    ensures forall k :: 0 <= k < |rows| ==> r[k] == rows[k].Data
  {
    if rows == [] then [] else DataOf(rows[..|rows| - 1]) + [rows[|rows| - 1].Data]
  }

  lemma DataOfAppend(a: seq<TableRow>, b: seq<TableRow>)
    ensures DataOf(a + b) == DataOf(a) + DataOf(b)
  {
  }

  /** The item loop of one expanded group. */
  method ItemRowsOf(name: string, items: seq<Item>, running: Running) returns (rows: seq<TableRow>)
    ensures rows == ItemRows(name, items, running)
  {
    rows := [];
    var i := 0;
    while i < |items|
      invariant 0 <= i <= |items|
      invariant rows == ItemRows(name, items[..i], running)
    {
      assert items[..i + 1][..i] == items[..i];
      var it := items[i];
      var status := StatusStopped;
      if it.index in running {
        status := StatusRunning;
      }
      var data := ["", it.config.Namespace, "  " + it.config.Service,
                   FormatInt(it.config.PortRemote), FormatInt(it.config.PortLocal), status];
      rows := rows + [TableRow(RowTypeItem, it.index, name, data)];
      i := i + 1;
    }
    assert items[..|items|] == items;
  }

  /** Strictly increasing names are pairwise distinct. */
  lemma SortedDistinct(s: seq<string>)
    requires StrictlySorted(s)
    ensures forall i, j :: 0 <= i < |s| && 0 <= j < |s| && i != j ==> s[i] != s[j]
  {
    forall i, j | 0 <= i < |s| && 0 <= j < |s| && i != j
      ensures s[i] != s[j]
    {
      if i < j {
        LexLessIrreflexive(s[i]);
      } else {
        LexLessIrreflexive(s[j]);
      }
    }
  }

  /** The first state loop of generateGroupedRows: every group not seen
      before gets a state, expanded. */
  method AddNewGroups(states: map<string, GroupState>, names: seq<string>, groups: map<string, seq<Item>>)
    returns (r: map<string, GroupState>)
    requires forall x :: x in names ==> x in groups
    ensures forall k :: k in r <==> k in states || k in names
    ensures forall k :: k in states ==> r[k] == states[k]
    ensures forall k :: k in r && k !in states ==> r[k].Expanded
  {
    r := states;
    var i := 0;
    while i < |names|
      invariant 0 <= i <= |names|
      invariant forall k :: k in r <==> k in states || k in names[..i]
      invariant forall k :: k in states ==> r[k] == states[k]
      invariant forall k :: k in r && k !in states ==> r[k].Expanded
    {
      var n := names[i];
      if n !in r {
        r := r[n := GroupState(true, |groups[n]|, 0)];
      }
      assert names[..i + 1] == names[..i] + [n];
      i := i + 1;
    }
    assert names[..|names|] == names;
  }

  /** The second state loop of generateGroupedRows: every shown group gets
      its item count and how many of them run, keeping whether it is
      expanded. */
  method UpdateCounts(states: map<string, GroupState>, names: seq<string>, groups: map<string, seq<Item>>,
                      running: Running) returns (r: map<string, GroupState>)
    requires forall x :: x in names <==> x in groups
    requires forall k :: k in groups ==> k in states
    requires forall i, j :: 0 <= i < |names| && 0 <= j < |names| && i != j ==> names[i] != names[j]
    ensures r.Keys == states.Keys
    ensures forall k :: k in groups ==>
      r[k] == GroupState(states[k].Expanded, |groups[k]|, ActiveCount(groups[k], running))
    ensures forall k :: k in states && k !in groups ==> r[k] == states[k]
  {
    r := states;
    var i := 0;
    while i < |names|
      invariant 0 <= i <= |names|
      invariant r.Keys == states.Keys
      invariant forall k :: k in states && k !in groups ==> r[k] == states[k]
      invariant forall j :: i <= j < |names| ==> r[names[j]] == states[names[j]]
      invariant forall j :: 0 <= j < i ==>
        r[names[j]] == GroupState(states[names[j]].Expanded, |groups[names[j]]|, ActiveCount(groups[names[j]], running))
    {
      var n := names[i];
      var st := r[n];
      var active := CountActive(groups[n], running);
      r := r[n := GroupState(st.Expanded, |groups[n]|, active)];
      i := i + 1;
    }
    forall k | k in groups
      ensures r[k] == GroupState(states[k].Expanded, |groups[k]|, ActiveCount(groups[k], running))
    {
      var j :| 0 <= j < |names| && names[j] == k;
    }
  }

  /** Both state loops together give StatesAfter. */
  method RefreshStates(states: map<string, GroupState>, names: seq<string>, groups: map<string, seq<Item>>,
                       running: Running) returns (r: map<string, GroupState>)
    requires forall x :: x in names <==> x in groups
    requires StrictlySorted(names)
    ensures r == StatesAfter(states, groups, running)
  {
    SortedDistinct(names);
    var added := AddNewGroups(states, names, groups);
    r := UpdateCounts(added, names, groups, running);
    assert r.Keys == StatesAfter(states, groups, running).Keys;
  }

  lemma AllRowsStep(names: seq<string>, i: nat, groups: map<string, seq<Item>>, states: map<string, GroupState>,
                    running: Running)
    requires Described(names, groups, states) && i < |names|
    ensures Described(names[..i], groups, states) && Described(names[..i + 1], groups, states)
    ensures AllRows(names[..i + 1], groups, states, running)
      == AllRows(names[..i], groups, states, running) + GroupRows(names[i], groups[names[i]], states[names[i]], running)
  {
    assert names[..i + 1][..i] == names[..i];
  }

  /** One group's rows as the row loop of generateGroupedRows builds them. */
  method GroupRowsOf(n: string, items: seq<Item>, st: GroupState, running: Running)
    returns (groupRows: seq<TableRow>)
    ensures groupRows == GroupRows(n, items, st, running)
  {
    var icon := "▼";
    if !st.Expanded {
      icon := "▶";
    }
    var header := [icon + " " + n, FormatInt(st.Count) + " total, " + FormatInt(st.Active) + " active",
                   "", "", "", ""];
    groupRows := [TableRow(RowTypeGroup, -1, n, header)];
    if st.Expanded {
      var rows := ItemRowsOf(n, items, running);
      groupRows := groupRows + rows;
    }
  }

  /** The row loop of generateGroupedRows: a header per group, then its
      items when it is expanded. */
  method GroupedRowsOf(names: seq<string>, groups: map<string, seq<Item>>, states: map<string, GroupState>,
                       running: Running) returns (tableRows: seq<TableRow>, rows: seq<seq<string>>)
    requires Described(names, groups, states)
    ensures tableRows == AllRows(names, groups, states, running)
    ensures rows == DataOf(tableRows)
  {
    rows := [];
    tableRows := [];
    var i := 0;
    while i < |names|
      invariant 0 <= i <= |names|
      invariant Described(names[..i], groups, states)
      invariant tableRows == AllRows(names[..i], groups, states, running)
      invariant rows == DataOf(tableRows)
    {
      var n := names[i];
      var groupRows := GroupRowsOf(n, groups[n], states[n], running);
      AllRowsStep(names, i, groups, states, running);
      DataOfAppend(tableRows, groupRows);
      tableRows := tableRows + groupRows;
      rows := rows + DataOf(groupRows);
      i := i + 1;
    }
    assert names[..|names|] == names;
  }

  /** The grouped view of the configs to show: the shown configs whose ID
      is known are grouped by context; the group states are refreshed; the
      rows are each group's header followed, when it is expanded, by its
      items, groups in increasing name order; the row index describes
      exactly the returned rows. */
  ghost predicate GroupedAs(actual: seq<PortForwardConfig>, all: seq<PortForwardConfig>, running: Running,
                            states: map<string, GroupState>, states': map<string, GroupState>,
                            tableRows: seq<TableRow>, rows: seq<seq<string>>) {
    var groups := GroupsOf(Indexed(actual, all));
    states' == StatesAfter(states, groups, running)
    && Described(SortedNames(groups.Keys), groups, states')
    && tableRows == AllRows(SortedNames(groups.Keys), groups, states', running)
    && rows == DataOf(tableRows)
  }

  /** The grouping, state and row steps of generateGroupedRows on values. */
  method GroupedView(actual: seq<PortForwardConfig>, all: seq<PortForwardConfig>,
                     states: map<string, GroupState>, running: Running)
    returns (states': map<string, GroupState>, tableRows: seq<TableRow>, rows: seq<seq<string>>)
    ensures GroupedAs(actual, all, running, states, states', tableRows, rows)
  {
    var groups := BuildGroups(actual, all);
    var names := SortNames(groups.Keys);
    SortedNamesFacts(groups.Keys);
    states' := RefreshStates(states, names, groups, running);
    tableRows, rows := GroupedRowsOf(names, groups, states', running);
  }

  /** generateGroupedRows. With grouping off it returns the flat rows and
      leaves the group states and the row index alone. With grouping on, it
      returns the grouped view (GroupedAs) and stores its group states and
      row index in the model. */
  method GenerateGroupedRows(m: Model, configs: seq<PortForwardConfig>) returns (rows: seq<seq<string>>)
    modifies m`groupStates, m`tableRows
    ensures !m.groupingEnabled ==>
      rows == PlainRows(Indexed(Shown(m, configs), m.configStore.configs), m.portForwarder.running)
      && m.groupStates == old(m.groupStates) && m.tableRows == old(m.tableRows)
    ensures m.groupingEnabled ==>
      GroupedAs(Shown(m, configs), m.configStore.configs, m.portForwarder.running,
                old(m.groupStates), m.groupStates, m.tableRows, rows)
  {
    if !m.groupingEnabled {
      rows := GeneratePortForwardRows(m, configs);
      return;
    }
    var actual := ShownConfigs(m, configs);
    rows := StoreGroupedView(m, actual, m.configStore.configs, m.portForwarder.running);
  }

  /** The grouping-on branch of generateGroupedRows once the configs to
      show are known: the model keeps the refreshed group states and the
      row index of the grouped view. */
  method StoreGroupedView(m: Model, actual: seq<PortForwardConfig>, all: seq<PortForwardConfig>, running: Running)
    returns (rows: seq<seq<string>>)
    modifies m`groupStates, m`tableRows
    ensures GroupedAs(actual, all, running, old(m.groupStates), m.groupStates, m.tableRows, rows)
  {
    var states, tableRows;
    states, tableRows, rows := GroupedView(actual, all, m.groupStates, running);
    m.groupStates := states;
    m.tableRows := tableRows;
  }

  // ---------------------------------------------------------------------
  // What the grouped rows show

  /** The group names of the header rows, in order. */
  function HeaderNames(rows: seq<TableRow>): (r: seq<string>)
    ensures |r| <= |rows|
  {
    if rows == [] then []
    else
      var last := rows[|rows| - 1];
      HeaderNames(rows[..|rows| - 1]) + (if last.Type == RowTypeGroup then [last.GroupName] else [])
  }

  lemma {:induction false} HeaderNamesAppend(a: seq<TableRow>, b: seq<TableRow>)
    ensures HeaderNames(a + b) == HeaderNames(a) + HeaderNames(b)
    decreases |b|
  {
    if b == [] {
      assert a + b == a;
    } else {
      var b' := b[..|b| - 1];
      assert (a + b)[..|a + b| - 1] == a + b';
      assert (a + b)[|a + b| - 1] == b[|b| - 1];
      HeaderNamesAppend(a, b');
    }
  }

  lemma {:induction false} ItemRowsNoHeaders(name: string, items: seq<Item>, running: Running)
    ensures HeaderNames(ItemRows(name, items, running)) == []
  {
    if items != [] {
      var rows := ItemRows(name, items, running);
      assert rows[..|rows| - 1] == ItemRows(name, items[..|items| - 1], running);
      ItemRowsNoHeaders(name, items[..|items| - 1], running);
    }
  }

  /** A group's rows hold exactly one header, its own. */
  lemma GroupRowsHeader(n: string, items: seq<Item>, st: GroupState, running: Running)
    ensures HeaderNames(GroupRows(n, items, st, running)) == [n]
  {
    var head := [TableRow(RowTypeGroup, -1, n, HeaderData(n, st))];
    var rest := if st.Expanded then ItemRows(n, items, running) else [];
    ItemRowsNoHeaders(n, items, running);
    HeaderNamesAppend(head, rest);
    assert head[..0] == [];
  }

  /** One header row per group, in the order of names. */
  lemma {:induction false} AllRowsHeaders(names: seq<string>, groups: map<string, seq<Item>>,
                                          states: map<string, GroupState>, running: Running)
    requires Described(names, groups, states)
    ensures HeaderNames(AllRows(names, groups, states, running)) == names
  {
    if names != [] {
      var init := names[..|names| - 1];
      var n := names[|names| - 1];
      assert names == init + [n];
      AllRowsHeaders(init, groups, states, running);
      GroupRowsHeader(n, groups[n], states[n], running);
      HeaderNamesAppend(AllRows(init, groups, states, running), GroupRows(n, groups[n], states[n], running));
    }
  }

  /** The headers of the grouped table name every shown group exactly once,
      in strictly increasing order. */
  lemma GroupHeadersInOrder(groups: map<string, seq<Item>>, states: map<string, GroupState>, running: Running)
    requires Described(SortedNames(groups.Keys), groups, states)
    ensures var h := HeaderNames(AllRows(SortedNames(groups.Keys), groups, states, running));
      StrictlySorted(h) && (forall x :: x in h <==> x in groups) && |h| == |groups|
  {
    AllRowsHeaders(SortedNames(groups.Keys), groups, states, running);
    SortedNamesFacts(groups.Keys);
  }

  /** A row of one group: its header, or one of its items when it is
      expanded. */
  lemma GroupRowsShape(n: string, items: seq<Item>, st: GroupState, running: Running)
    ensures forall r :: r in GroupRows(n, items, st, running) ==> r.GroupName == n
    ensures forall r :: r in GroupRows(n, items, st, running) && r.Type == RowTypeGroup ==>
      r.ConfigIndex == -1 && r.Data == HeaderData(n, st)
    ensures forall r :: r in GroupRows(n, items, st, running) && r.Type == RowTypeItem ==>
      st.Expanded && exists it :: it in items && it.index == r.ConfigIndex
  {
    var g := GroupRows(n, items, st, running);
    GroupRowsAt(n, items, st, running);
    forall r | r in g
      ensures r.GroupName == n
      ensures r.Type == RowTypeGroup ==> r.ConfigIndex == -1 && r.Data == HeaderData(n, st)
      ensures r.Type == RowTypeItem ==> st.Expanded && exists it :: it in items && it.index == r.ConfigIndex
    {
      var k :| 0 <= k < |g| && g[k] == r;
      if k > 0 {
        assert items[k - 1] in items;
      }
    }
  }

  /** The rows of one group by position: the header first, then the items in order. */
  lemma GroupRowsAt(n: string, items: seq<Item>, st: GroupState, running: Running)
    ensures GroupRows(n, items, st, running)[0] == TableRow(RowTypeGroup, -1, n, HeaderData(n, st))
    ensures forall k :: 1 <= k < |GroupRows(n, items, st, running)| ==>
      st.Expanded && k - 1 < |items| && GroupRows(n, items, st, running)[k] == TableRow(RowTypeItem, items[k - 1].index, n, ItemData(items[k - 1], running))
  {
  }

  /** An expanded group's rows show every one of its items. */
  lemma GroupRowsShowItems(n: string, items: seq<Item>, st: GroupState, running: Running)
    ensures st.Expanded ==> forall it :: it in items ==>
      TableRow(RowTypeItem, it.index, n, ItemData(it, running)) in GroupRows(n, items, st, running)
  {
    var g := GroupRows(n, items, st, running);
    if st.Expanded {
      forall it | it in items
        ensures TableRow(RowTypeItem, it.index, n, ItemData(it, running)) in g
      {
        var j :| 0 <= j < |items| && items[j] == it;
        assert g[j + 1] == TableRow(RowTypeItem, it.index, n, ItemData(it, running));
      }
    }
  }

  /** What each row of the grouped table is: a header carries no config
      index and shows its group's state; an item belongs to an expanded
      group and carries the index of one of that group's items. */
  lemma {:induction false} AllRowsShape(names: seq<string>, groups: map<string, seq<Item>>,
                                        states: map<string, GroupState>, running: Running)
    requires Described(names, groups, states)
    ensures forall r :: r in AllRows(names, groups, states, running) ==>
      r.GroupName in names
      && (r.Type == RowTypeGroup ==> r.ConfigIndex == -1 && r.Data == HeaderData(r.GroupName, states[r.GroupName]))
      && (r.Type == RowTypeItem ==>
            states[r.GroupName].Expanded && exists it :: it in groups[r.GroupName] && it.index == r.ConfigIndex)
  {
    if names != [] {
      var init := names[..|names| - 1];
      var n := names[|names| - 1];
      AllRowsShape(init, groups, states, running);
      GroupRowsShape(n, groups[n], states[n], running);
      assert forall x :: x in init ==> x in names;
    }
  }

  /** Every item of an expanded group has its row in the grouped table. */
  lemma {:induction false} AllRowsShowExpanded(names: seq<string>, groups: map<string, seq<Item>>,
                                               states: map<string, GroupState>, running: Running)
    requires Described(names, groups, states)
    ensures forall n, it :: n in names && states[n].Expanded && it in groups[n] ==>
      TableRow(RowTypeItem, it.index, n, ItemData(it, running)) in AllRows(names, groups, states, running)
  {
    if names != [] {
      var init := names[..|names| - 1];
      var n := names[|names| - 1];
      AllRowsShowExpanded(init, groups, states, running);
      GroupRowsShowItems(n, groups[n], states[n], running);
      assert forall x :: x in names ==> x in init || x == n;
    }
  }

  /** Every item row of the grouped table for the shown configs carries the
      index of a config in the full list, with the ID of a shown config of
      that row's group. */
  lemma GroupedItemsPointToConfigs(shown: seq<PortForwardConfig>, all: seq<PortForwardConfig>,
                                   states: map<string, GroupState>, running: Running)
    requires Described(SortedNames(GroupsOf(Indexed(shown, all)).Keys), GroupsOf(Indexed(shown, all)), states)
    ensures var groups := GroupsOf(Indexed(shown, all));
      forall r :: r in AllRows(SortedNames(groups.Keys), groups, states, running) && r.Type == RowTypeItem ==>
        0 <= r.ConfigIndex < |all|
        && exists c :: c in shown && c.ID == all[r.ConfigIndex].ID && GroupKey(c) == r.GroupName
  {
    var items := Indexed(shown, all);
    var groups := GroupsOf(items);
    var names := SortedNames(groups.Keys);
    AllRowsShape(names, groups, states, running);
    GroupsOfIsInGroup(items);
    IndexedItems(shown, all);
    forall r | r in AllRows(names, groups, states, running) && r.Type == RowTypeItem
      ensures 0 <= r.ConfigIndex < |all|
      ensures exists c :: c in shown && c.ID == all[r.ConfigIndex].ID && GroupKey(c) == r.GroupName
    {
      var it :| it in groups[r.GroupName] && it.index == r.ConfigIndex;
      assert it in InGroup(items, r.GroupName);
      assert it.config in shown && it.config.ID == all[r.ConfigIndex].ID;
    }
  }

  // ---------------------------------------------------------------------
  // From the cursor to a config

  /** Whether a text filter is active. */
  predicate Filtering(m: Model)
    reads m`filterMode, m`filterValue
  {
    m.filterMode || m.filterValue != ""
  }

  /** Two configs for the same context, namespace and service. */
  predicate SameService(a: PortForwardConfig, b: PortForwardConfig) {
    a.Context == b.Context && a.Namespace == b.Namespace && a.Service == b.Service
  }

  /** The first config in all, from i on, for the same context, namespace
      and service as cfg; -1 when there is none. */
  function TargetIndexFrom(all: seq<PortForwardConfig>, cfg: PortForwardConfig, i: nat): (r: int)
    requires i <= |all|
    ensures r == -1 || i <= r < |all|
    ensures r >= 0 ==> (SameService(all[r], cfg) && forall k :: i <= k < r ==> !SameService(all[k], cfg))
    ensures r == -1 <==> forall k :: i <= k < |all| ==> !SameService(all[k], cfg)
    decreases |all| - i
  {
    if i == |all| then -1
    else if SameService(all[i], cfg) then i
    else TargetIndexFrom(all, cfg, i + 1)
  }

  /** The search loop of getConfigIndexFromTableRow for a filtered row. */
  method FindTarget(all: seq<PortForwardConfig>, cfg: PortForwardConfig) returns (index: int)
    ensures index == TargetIndexFrom(all, cfg, 0)
  {
    var i := 0;
    while i < |all|
      invariant 0 <= i <= |all|
      invariant TargetIndexFrom(all, cfg, i) == TargetIndexFrom(all, cfg, 0)
    {
      if all[i].Context == cfg.Context && all[i].Namespace == cfg.Namespace && all[i].Service == cfg.Service {
        return i;
      }
      i := i + 1;
    }
    return -1;
  }

  /** isGroupHeaderSelected. */
  predicate IsGroupHeaderSelected(m: Model, cursor: int)
    reads m`tableRows
  {
    0 <= cursor < |m.tableRows| && m.tableRows[cursor].Type == RowTypeGroup
  }

  /** getSelectedGroupName: the group of the row under the cursor, "" off
      the table. */
  function SelectedGroupName(m: Model, cursor: int): (r: string)
    reads m`tableRows
    ensures IsGroupHeaderSelected(m, cursor) ==> r == m.tableRows[cursor].GroupName
    ensures !(0 <= cursor < |m.tableRows|) ==> r == ""
  {
    if 0 <= cursor < |m.tableRows| then m.tableRows[cursor].GroupName else ""
  }

  /** getConfigIndexFromTableRow. Grouped: an item row gives its config
      index, a header or a cursor off the table an error. Ungrouped: the
      cursor indexes the filtered list when a filter is active and has
      results, else the full list; a filtered row is mapped back to the
      first config with its context, namespace and service. */
  method GetConfigIndexFromTableRow(m: Model, cursor: int) returns (r: Result<int, string>)
    ensures m.groupingEnabled ==>
      (!(0 <= cursor < |m.tableRows|) ==> r == Err("invalid table selection"))
      && (IsGroupHeaderSelected(m, cursor) ==> r == Err("selected row is not a port forward item"))
      && (r.Ok? <==> 0 <= cursor < |m.tableRows| && !IsGroupHeaderSelected(m, cursor))
      && (r.Ok? ==> r.value == m.tableRows[cursor].ConfigIndex)
    ensures !m.groupingEnabled && Filtering(m) && m.filteredConfigs.Some? ==>
      var list := m.filteredConfigs.value;
      (!(0 <= cursor < |list|) ==> r == Err("invalid table selection"))
      && (0 <= cursor < |list| ==>
            var k := TargetIndexFrom(m.configStore.configs, list[cursor], 0);
            r == if k == -1 then Err("could not find original config index for filtered item") else Ok(k))
    ensures !m.groupingEnabled && !(Filtering(m) && m.filteredConfigs.Some?) ==>
      r == if 0 <= cursor < |m.configStore.configs| then Ok(cursor) else Err("invalid table selection")
  {
    if !m.groupingEnabled {
      var filtered := (m.filterMode || m.filterValue != "") && m.filteredConfigs.Some?;
      var configs := if filtered then m.filteredConfigs.value else m.configStore.configs;
      if cursor < 0 || cursor >= |configs| {
        return Err("invalid table selection");
      }
      if filtered {
        var index := FindTarget(m.configStore.configs, configs[cursor]);
        if index == -1 {
          return Err("could not find original config index for filtered item");
        }
        return Ok(index);
      }
      return Ok(cursor);
    }
    if cursor < 0 || cursor >= |m.tableRows| {
      return Err("invalid table selection");
    }
    var row := m.tableRows[cursor];
    if row.Type != RowTypeItem {
      return Err("selected row is not a port forward item");
    }
    return Ok(row.ConfigIndex);
  }

  /** The config index a cursor on the ungrouped table without a filter is
      meant to designate: that of the item its row was built from. The
      code returns the cursor itself, an index into the full list, which
      agrees only while every config is shown in order. */
  function ShownRowIndex(shown: seq<PortForwardConfig>, all: seq<PortForwardConfig>, cursor: int): (r: Result<int, string>)
    ensures r.Ok? <==> 0 <= cursor < |Indexed(shown, all)|
    ensures r.Ok? ==> 0 <= r.value < |all| && all[r.value].ID == Indexed(shown, all)[cursor].config.ID
    ensures r.Err? ==> r == Err("invalid table selection")
  {
    if 0 <= cursor < |Indexed(shown, all)| then
      IndexedItems(shown, all);
      assert Indexed(shown, all)[cursor] in Indexed(shown, all);
      Ok(Indexed(shown, all)[cursor].index)
    else Err("invalid table selection")
  }

  /** With an active project that leaves out the first config, the first
      row shows the second config, while the code's Ok(cursor) designates
      the first one. */
  lemma ProjectRowDesignatesOtherConfig()
    ensures var a := PortForwardConfig("a", "ctx", "ns", "web", 80, 8080);
            var b := PortForwardConfig("b", "ctx", "ns", "api", 81, 8081);
            var shown := Store.ProjectForwards([a, b], ["b"]);
            shown == [b] && Indexed(shown, [a, b]) == [Item(b, 1)]
            && ShownRowIndex(shown, [a, b], 0) == Ok(1) && [a, b][0] != b
  {
    var a := PortForwardConfig("a", "ctx", "ns", "web", 80, 8080);
    var b := PortForwardConfig("b", "ctx", "ns", "api", 81, 8081);
    assert Store.LastIndexOfID([a, b], "b") == 1;
    assert IndexOfID([a, b], "b") == 1;
  }

  /** When every config is shown, in order, and IDs are distinct, the
      intended index is the cursor, as the code returns. */
  lemma {:induction false} IndexedAll(all: seq<PortForwardConfig>, n: nat)
    requires n <= |all|
    requires forall j, k :: 0 <= j < k < |all| ==> all[j].ID != all[k].ID
    ensures Indexed(all[..n], all) == seq(n, k requires 0 <= k < n => Item(all[k], k))
  {
    if n > 0 {
      IndexedAll(all, n - 1);
      assert all[..n][..n - 1] == all[..n - 1];
      assert IndexOfID(all, all[n - 1].ID) == n - 1;
    }
  }

  lemma ShownRowIndexWithoutProject(all: seq<PortForwardConfig>, cursor: int)
    requires forall j, k :: 0 <= j < k < |all| ==> all[j].ID != all[k].ID
    ensures ShownRowIndex(all, all, cursor) == if 0 <= cursor < |all| then Ok(cursor) else Err("invalid table selection")
  {
    IndexedAll(all, |all|);
    assert all[..|all|] == all;
  }
}
