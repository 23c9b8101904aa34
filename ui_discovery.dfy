/** The service-discovery screen of the terminal UI (pkg/ui/update_discovery.go):
    per-port IDs, the port list built from a discovery result, its text
    filter, toggling, local-port editing, and the confirm step that adds and
    removes configs. The store behind the screen is the SQLite one; its rows
    are the configs field of the Model's ConfigStore, changed through
    Sqlite.Add and Sqlite.Delete. */
module UIDiscovery {
  import opened Common
  import opened GoStrings
  import opened Discovery
  import Sqlite
  import Prune
  import opened UITypes

  // ---------------------------------------------------------------------
  // detectServiceTypeFromInfo and generateServicePortID

  /** detectServiceTypeFromInfo as a value: a label; else the first common
      type occurring in the lower-cased name; else the sanitized Kubernetes
      type; else "service". */
  function TypeFromInfo(service: ServiceInfo): string {
    match LabelType(service.Labels)
    case Some(v) => Sanitize(v)
    case None =>
      var k := FirstTypeFrom(ToLower(service.Name), CommonTypes, 0);
      if k >= 0 then CommonTypes[k]
      else if service.Type != "" then Sanitize(service.Type)
      else "service"
  }

  /** The loop of detectServiceTypeFromInfo. */
  method DetectServiceTypeFromInfo(service: ServiceInfo) returns (r: string)
    ensures r == TypeFromInfo(service)
    ensures LabelType(service.Labels).Some? ==> r == Sanitize(LabelType(service.Labels).value)
  {
    var fromLabel := LabelType(service.Labels);
    if fromLabel.Some? {
      r := SanitizeIDPart(fromLabel.value);
      return;
    }
    var nameLower := ToLower(service.Name);
    var i := 0;
    while i < |CommonTypes|
      invariant 0 <= i <= |CommonTypes|
      invariant FirstTypeFrom(nameLower, CommonTypes, 0) == FirstTypeFrom(nameLower, CommonTypes, i)
    {
      if Contains(nameLower, CommonTypes[i]) {
        return CommonTypes[i];
      }
      i := i + 1;
    }
    if service.Type != "" {
      r := SanitizeIDPart(service.Type);
      return;
    }
    return "service";
  }

  lemma ToLowerIdempotent(s: string)
    ensures ToLower(ToLower(s)) == ToLower(s)
  {
  }

  /** The name is matched without regard to ASCII case. */
  lemma TypeFromInfoIgnoresCase(service: ServiceInfo)
    ensures TypeFromInfo(service.(Name := ToLower(service.Name))) == TypeFromInfo(service)
  {
    ToLowerIdempotent(service.Name);
  }

  /** The type part is a non-empty word without a dot. */
  lemma TypeFromInfoHasNoDot(service: ServiceInfo)
    ensures '.' !in TypeFromInfo(service) && TypeFromInfo(service) != []
  {
    match LabelType(service.Labels)
    case Some(v) =>
      SanitizeShape(v);
    case None =>
      var k := FirstTypeFrom(ToLower(service.Name), CommonTypes, 0);
      if k >= 0 {
        CommonTypeHasNoDot(k);
      } else if service.Type != "" {
        SanitizeShape(service.Type);
      }
  }

  /** The discriminator of a port ID: the sanitized service name, "-" and
      the port number, then "-" and the sanitized port name unless the name
      is "", "http" or "tcp". */
  function PortDiscriminator(serviceName: string, port: ServicePort): string {
    Sanitize(serviceName) + ("-" + FormatInt(port.Port)) + (if PlainPortName(port.Name) then "" else "-" + Sanitize(port.Name))
  }

  /** generateServicePortID as a value. */
  function PortID(context: string, service: ServiceInfo, port: ServicePort): string {
    Sanitize(context) + "." + TypeFromInfo(service) + "." + PortDiscriminator(service.Name, port)
  }

  lemma FormatIntHasNoDot(n: int)
    ensures '.' !in FormatInt(n)
  {
    var d := Digits(if n < 0 then -n else n);
    assert forall k :: 0 <= k < |d| ==> d[k] != '.';
    if n < 0 {
      assert FormatInt(n) == "-" + d;
    }
  }

  lemma IDPartHasNoDot(s: string)
    ensures '.' !in Sanitize(s)
  {
    SanitizeShape(s);
    IDCharsNoDot(Sanitize(s));
  }

  lemma PortDiscriminatorHasNoDot(serviceName: string, port: ServicePort)
    ensures '.' !in PortDiscriminator(serviceName, port)
  {
    IDPartHasNoDot(serviceName);
    IDPartHasNoDot(port.Name);
    FormatIntHasNoDot(port.Port);
    var a := Sanitize(serviceName);
    var b := "-" + FormatInt(port.Port);
    var c := if PlainPortName(port.Name) then "" else "-" + Sanitize(port.Name);
    assert PortDiscriminator(serviceName, port) == a + b + c;
    assert '.' !in a && '.' !in c;
  }

  /** A port ID has exactly two dots: it splits into the sanitized context,
      the type and the discriminator, which always carries the port number. */
  lemma PortIDParts(context: string, service: ServiceInfo, port: ServicePort)
    ensures SplitDots(PortID(context, service, port))
            == [Sanitize(context), TypeFromInfo(service), PortDiscriminator(service.Name, port)]
  {
    var c := Sanitize(context);
    var t := TypeFromInfo(service);
    var d := PortDiscriminator(service.Name, port);
    IDPartHasNoDot(context);
    TypeFromInfoHasNoDot(service);
    PortDiscriminatorHasNoDot(service.Name, port);
    SplitNoDot(c);
    SplitJoin(c, t);
    SplitJoin(c + "." + t, d);
  }

  /** generateServicePortID. */
  method GenerateServicePortID(context: string, service: ServiceInfo, port: ServicePort) returns (id: string)
    ensures id == PortID(context, service, port)
  {
    var contextPart := SanitizeIDPart(context);
    var serviceType := DetectServiceTypeFromInfo(service);
    var discriminator := SanitizeIDPart(service.Name);
    discriminator := discriminator + ("-" + FormatInt(port.Port));
    if port.Name != "" && port.Name != "http" && port.Name != "tcp" {
      var portPart := SanitizeIDPart(port.Name);
      discriminator := discriminator + ("-" + portPart);
    }
    id := contextPart + "." + serviceType + "." + discriminator;
  }

  // ---------------------------------------------------------------------
  // applyDiscoveryPortFilter

  /** The texts a port row is searched in: the lower-cased service name,
      namespace, type and port name, and the decimal port number. */
  function SearchFields(p: PortSelection): seq<string> {
    [ToLower(p.ServiceName), ToLower(p.ServiceNamespace), ToLower(p.ServiceType), ToLower(p.Port.Name), FormatInt(p.Port.Port)]
  }

  /** Some field contains the text. */
  predicate AnyContains(fields: seq<string>, text: string) {
    fields != [] && (IsSubstring(text, fields[0]) || AnyContains(fields[1..], text))
  }

  /** A port row matches a (lower-cased) filter text. */
  predicate PortMatches(p: PortSelection, text: string) {
    AnyContains(SearchFields(p), text)
  }

  /** The matching rows, in list order. */
  function MatchingPorts(ports: seq<PortSelection>, text: string): (r: seq<PortSelection>)
    ensures |r| <= |ports|
  {
    if ports == [] then []
    else
      var rest := MatchingPorts(ports[..|ports| - 1], text);
      if PortMatches(ports[|ports| - 1], text) then rest + [ports[|ports| - 1]] else rest
  }

  /** The filter keeps exactly the matching rows, each as often as it occurs. */
  lemma {:induction false} MatchingPortsCounts(ports: seq<PortSelection>, text: string, p: PortSelection)
    ensures multiset(MatchingPorts(ports, text))[p] == if PortMatches(p, text) then multiset(ports)[p] else 0
  {
    if ports != [] {
      MatchingPortsCounts(ports[..|ports| - 1], text, p);
      assert ports == ports[..|ports| - 1] + [ports[|ports| - 1]];
    }
  }

  /** What applyDiscoveryPortFilter returns for the filter input's value. */
  function FilterPorts(ports: seq<PortSelection>, value: string): (r: seq<PortSelection>)
    ensures ToLower(TrimSpace(value)) == "" ==> r == ports
  {
    var text := ToLower(TrimSpace(value));
    if text == "" then ports else MatchingPorts(ports, text)
  }

  /** Every filtered row is a row of the full list. */
  lemma FilterPortsFromList(ports: seq<PortSelection>, value: string, k: int)
    requires 0 <= k < |FilterPorts(ports, value)|
    ensures FilterPorts(ports, value)[k] in ports
  {
    var text := ToLower(TrimSpace(value));
    if text != "" {
      var p := FilterPorts(ports, value)[k];
      assert p in multiset(MatchingPorts(ports, text));
      MatchingPortsCounts(ports, text, p);
    }
  }

  /** The five-field search, field by field. */
  lemma PortMatchesFields(p: PortSelection, text: string)
    ensures PortMatches(p, text) <==>
      IsSubstring(text, ToLower(p.ServiceName)) || IsSubstring(text, ToLower(p.ServiceNamespace))
      || IsSubstring(text, ToLower(p.ServiceType)) || IsSubstring(text, ToLower(p.Port.Name))
      || IsSubstring(text, FormatInt(p.Port.Port))
  {
    var f := SearchFields(p);
    assert f[1..] == f[1..][0..] && f[1..][1..] == f[2..] && f[2..][1..] == f[3..];
    assert f[3..][1..] == f[4..] && f[4..][1..] == [];
    assert AnyContains(f[4..], text) <==> IsSubstring(text, f[4]);
    assert AnyContains(f[3..], text) <==> IsSubstring(text, f[3]) || AnyContains(f[4..], text);
    assert AnyContains(f[2..], text) <==> IsSubstring(text, f[2]) || AnyContains(f[3..], text);
    assert AnyContains(f[1..], text) <==> IsSubstring(text, f[1]) || AnyContains(f[2..], text);
  }

  /** The condition of the filter loop. */
  method RowMatches(port: PortSelection, filterText: string) returns (b: bool)
    ensures b == PortMatches(port, filterText)
  {
    PortMatchesFields(port, filterText);
    b := Contains(ToLower(port.ServiceName), filterText)
      || Contains(ToLower(port.ServiceNamespace), filterText)
      || Contains(ToLower(port.ServiceType), filterText)
      || Contains(ToLower(port.Port.Name), filterText)
      || Contains(FormatInt(port.Port.Port), filterText);
  }

  /** applyDiscoveryPortFilter. */
  method ApplyDiscoveryPortFilter(ports: seq<PortSelection>, value: string) returns (filtered: seq<PortSelection>)
    ensures filtered == FilterPorts(ports, value)
  {
    var filterText := ToLower(TrimSpace(value));
    if filterText == "" {
      return ports;
    }
    filtered := [];
    var i := 0;
    while i < |ports|
      invariant 0 <= i <= |ports|
      invariant filtered == MatchingPorts(ports[..i], filterText)
    {
      assert ports[..i + 1][..i] == ports[..i];
      var port := ports[i];
      var keep := RowMatches(port, filterText);
      if keep
      {
        filtered := filtered + [port];
      }
      i := i + 1;
    }
    assert ports[..|ports|] == ports;
  }

  // ---------------------------------------------------------------------
  // From a table cursor to a row of the full list

  /** The rows the table shows: the filtered rows when the input is not
      empty, else all rows. */
  function Visible(ports: seq<PortSelection>, value: string): seq<PortSelection> {
    if value != "" then FilterPorts(ports, value) else ports
  }

  /** The first row with the ID at or after i, or -1. */
  function FirstWithID(ports: seq<PortSelection>, id: string, i: nat): (r: int)
    requires i <= |ports|
    ensures r == -1 || i <= r < |ports|
    ensures r >= 0 ==> ports[r].GeneratedID == id && forall k :: i <= k < r ==> ports[k].GeneratedID != id
    ensures r == -1 <==> forall k :: i <= k < |ports| ==> ports[k].GeneratedID != id
    decreases |ports| - i
  {
    if i == |ports| then -1
    else if ports[i].GeneratedID == id then i
    else FirstWithID(ports, id, i + 1)
  }

  /** The full-list row the cursor designates, or -1 for a cursor past the
      shown rows. With a filter the shown row is looked up by its ID, so the
      first row carrying that ID is the one designated. */
  function Target(ports: seq<PortSelection>, value: string, cursor: nat): (r: int)
    ensures r == -1 <==> cursor >= |Visible(ports, value)|
    ensures r >= 0 ==> r < |ports| && ports[r].GeneratedID == Visible(ports, value)[cursor].GeneratedID
    ensures r >= 0 && value == "" ==> r == cursor
    ensures r >= 0 && value != "" ==> forall k :: 0 <= k < r ==> ports[k].GeneratedID != ports[r].GeneratedID
  {
    var shown := Visible(ports, value);
    if cursor >= |shown| then -1
    else if value == "" then cursor
    else
      FilterPortsFromList(ports, value, cursor);
      FirstWithID(ports, shown[cursor].GeneratedID, 0)
  }

  /** The lookup loop over the full list. */
  method FindPortByID(ports: seq<PortSelection>, id: string) returns (index: int)
    ensures index == FirstWithID(ports, id, 0)
  {
    var i := 0;
    while i < |ports|
      invariant 0 <= i <= |ports|
      invariant FirstWithID(ports, id, 0) == FirstWithID(ports, id, i)
    {
      if ports[i].GeneratedID == id {
        return i;
      }
      i := i + 1;
    }
    return -1;
  }

  /** The rows with Selected flipped at position t. */
  function Flipped(ports: seq<PortSelection>, t: int): (r: seq<PortSelection>)
    requires 0 <= t < |ports|
    ensures |r| == |ports| && r[t].Selected == !ports[t].Selected
    ensures forall k :: 0 <= k < |ports| && k != t ==> r[k] == ports[k]
  {
    ports[t := ports[t].(Selected := !ports[t].Selected)]
  }

  /** The cursor lookup the toggle and edit handlers share: the shown rows
      are the filtered rows when the input is not empty, and a shown row is
      found again in the full list by its ID. */
  method ResolveCursor(ports: seq<PortSelection>, value: string, cursor: nat) returns (t: int)
    ensures t == Target(ports, value, cursor)
  {
    if value != "" {
      var filteredPorts := ApplyDiscoveryPortFilter(ports, value);
      if cursor >= |filteredPorts| {
        return -1;
      }
      t := FindPortByID(ports, filteredPorts[cursor].GeneratedID);
    } else {
      if cursor >= |ports| {
        return -1;
      }
      t := cursor;
    }
  }

  /** handleServiceToggle: flip the designated row; a cursor past the shown
      rows is an error and changes nothing. */
  method HandleServiceToggle(m: Model, cursor: nat)
    modifies m`discoveryPorts, m`errorMsg
    ensures var t := Target(old(m.discoveryPorts), m.discoveryFilterValue, cursor);
      if t == -1 then
        m.errorMsg == "Invalid port selection" && m.discoveryPorts == old(m.discoveryPorts)
      else
        m.errorMsg == old(m.errorMsg) && m.discoveryPorts == Flipped(old(m.discoveryPorts), t)
  {
    var i := ResolveCursor(m.discoveryPorts, m.discoveryFilterValue, cursor);
    if i == -1 {
      m.errorMsg := "Invalid port selection";
      return;
    }
    m.discoveryPorts := m.discoveryPorts[i := m.discoveryPorts[i].(Selected := !m.discoveryPorts[i].Selected)];
  }

  // ---------------------------------------------------------------------
  // Local-port editing

  const MaxInt64: int := 0x7fff_ffff_ffff_ffff

  /** The runes fmt's %d verb gathers into its token: the decimal digits
      only (underscores are read only without a verb or with %v). */
  predicate IsDecimalRune(c: char) {
    '0' <= c <= '9'
  }

  predicate AllDigits(s: string) {
    forall k :: 0 <= k < |s| ==> IsDecimalRune(s[k])
  }

  /** The longest prefix of s made of decimal runes. */
  function DecimalRun(s: string): (r: string)
    ensures |r| <= |s| && r == s[..|r|]
    ensures AllDigits(r)
    ensures |r| < |s| ==> !IsDecimalRune(s[|r|])
  {
    if s == [] || !IsDecimalRune(s[0]) then []
    else [s[0]] + DecimalRun(s[1..])
  }

  /** The value of a string of decimal digits. */
  function DigitsValue(s: string): nat
    requires AllDigits(s)
  {
    if s == [] then 0 else DigitsValue(s[..|s| - 1]) * 10 + (s[|s| - 1] as int - '0' as int)
  }

  /** fmt.Sscanf(s, "%d", &n) on text without leading space: an optional
      sign, then the longest run of decimal digits, which must be non-empty
      and fit an int64; text after the run is ignored. None is an error. */
  function ScanInt(s: string): (r: Option<int>)
    ensures r.Some? ==> -MaxInt64 - 1 <= r.value <= MaxInt64
  {
    var start := if |s| > 0 && (s[0] == '+' || s[0] == '-') then 1 else 0;
    var run := DecimalRun(s[start..]);
    if run == [] then None
    else
      var v: int := if start == 1 && s[0] == '-' then -(DigitsValue(run) as int) else DigitsValue(run);
      if -MaxInt64 - 1 <= v <= MaxInt64 then Some(v) else None
  }

  lemma {:induction false} DecimalRunAll(s: string)
    requires forall k :: 0 <= k < |s| ==> IsDecimalRune(s[k])
    ensures DecimalRun(s) == s
  {
    if s != [] {
      DecimalRunAll(s[1..]);
    }
  }

  lemma {:induction false} DigitsValueOf(n: nat)
    ensures AllDigits(Digits(n)) && DigitsValue(Digits(n)) == n
    decreases n
  {
    if n >= 10 {
      DigitsValueOf(n / 10);
      var d := Digits(n);
      assert d[..|d| - 1] == Digits(n / 10);
    }
  }

  /** Reading back what %d printed gives the number again. */
  lemma ScanFormatRoundTrip(n: int)
    requires 0 <= n <= MaxInt64
    ensures ScanInt(FormatInt(n)) == Some(n)
  {
    var d := Digits(n);
    DigitsValueOf(n);
    DecimalRunAll(d);
    assert FormatInt(n)[0..] == d;
  }

  /** The %d token ends at the first rune that is not a digit, an
      underscore as much as a space, and the rest is ignored. */
  lemma ScanIntStopsAtNonDigit()
    ensures ScanInt("80_80") == Some(80)
    ensures ScanInt("80 80") == Some(80)
  {
    assert DecimalRun("80_80") == "80";
    assert DecimalRun("80 80") == "80";
    assert DigitsValue("8") == 8;
  }

  /** The message that refuses to edit an existing row during discovery. */
  const ExistingEditBlocked := "Cannot edit existing configuration during service discovery"

  /** handleDiscoveryEditStart: enter edit mode on the designated row unless
      it is an existing configuration. */
  method HandleDiscoveryEditStart(m: Model, cursor: nat)
    modifies m`discoveryEditMode, m`discoveryEditIndex, m`discoveryEditInput, m`errorMsg
    ensures var t := Target(m.discoveryPorts, m.discoveryFilterValue, cursor);
      if t == -1 then
        m.errorMsg == "Invalid port selection"
        && unchanged(m`discoveryEditMode, m`discoveryEditIndex, m`discoveryEditInput)
      else if m.discoveryPorts[t].ExistingConfigIndex != -1 then
        m.errorMsg == ExistingEditBlocked
        && unchanged(m`discoveryEditMode, m`discoveryEditIndex, m`discoveryEditInput)
      else
        m.discoveryEditMode && m.discoveryEditIndex == t && m.errorMsg == ""
        && m.discoveryEditInput == FormatInt(m.discoveryPorts[t].LocalPort)
  {
    var actualPortIndex := ResolveCursor(m.discoveryPorts, m.discoveryFilterValue, cursor);
    if actualPortIndex == -1 {
      m.errorMsg := "Invalid port selection";
      return;
    }
    if m.discoveryPorts[actualPortIndex].ExistingConfigIndex != -1 {
      m.errorMsg := ExistingEditBlocked;
      return;
    }
    m.discoveryEditMode := true;
    m.discoveryEditIndex := actualPortIndex;
    m.discoveryEditInput := FormatInt(m.discoveryPorts[actualPortIndex].LocalPort);
    m.errorMsg := "";
  }

  /** The message that refuses to edit the local port of an existing row. */
  const ExistingEditRefused := "Cannot edit local port: This service already exists in configuration. Edit it from the main view instead."

  /** The edit key in the service list: a row that is an existing
      configuration is refused with its own message; otherwise editing
      starts as handleDiscoveryEditStart decides. */
  method StartLocalPortEdit(m: Model, cursor: nat)
    modifies m`discoveryEditMode, m`discoveryEditIndex, m`discoveryEditInput, m`errorMsg
    ensures var t := Target(m.discoveryPorts, m.discoveryFilterValue, cursor);
      if t == -1 then
        m.errorMsg == "Invalid port selection"
        && unchanged(m`discoveryEditMode, m`discoveryEditIndex, m`discoveryEditInput)
      else if m.discoveryPorts[t].ExistingConfigIndex != -1 then
        m.errorMsg == ExistingEditRefused
        && unchanged(m`discoveryEditMode, m`discoveryEditIndex, m`discoveryEditInput)
      else
        m.discoveryEditMode && m.discoveryEditIndex == t && m.errorMsg == ""
        && m.discoveryEditInput == FormatInt(m.discoveryPorts[t].LocalPort)
  {
    ghost var t := Target(m.discoveryPorts, m.discoveryFilterValue, cursor);
    var target := ResolveCursor(m.discoveryPorts, m.discoveryFilterValue, cursor);
    if target >= 0 && m.discoveryPorts[target].ExistingConfigIndex != -1 {
      m.errorMsg := ExistingEditRefused;
      return;
    }
    HandleDiscoveryEditStart(m, cursor);
    assert !(t >= 0 && m.discoveryPorts[t].ExistingConfigIndex != -1);
  }

  /** handleDiscoveryEditConfirm: the trimmed input must be non-empty, scan
      as an integer and lie in 1..65535; only then the row being edited gets
      the new local port and edit mode ends. */
  method HandleDiscoveryEditConfirm(m: Model)
    requires 0 <= m.discoveryEditIndex < |m.discoveryPorts|
    modifies m`discoveryPorts, m`discoveryEditMode, m`errorMsg
    ensures var text := TrimSpace(m.discoveryEditInput);
      if text == "" then
        m.errorMsg == "Local port cannot be empty" && unchanged(m`discoveryPorts, m`discoveryEditMode)
      else if ScanInt(text).None? then
        m.errorMsg == "Invalid port number" && unchanged(m`discoveryPorts, m`discoveryEditMode)
      else if !(1 <= ScanInt(text).value <= 65535) then
        m.errorMsg == "Port must be between 1 and 65535" && unchanged(m`discoveryPorts, m`discoveryEditMode)
      else
        m.discoveryPorts == old(m.discoveryPorts)[m.discoveryEditIndex := old(m.discoveryPorts)[m.discoveryEditIndex].(LocalPort := ScanInt(text).value)]
        && !m.discoveryEditMode && m.errorMsg == ""
  {
    var inputText := TrimSpace(m.discoveryEditInput);
    if inputText == "" {
      m.errorMsg := "Local port cannot be empty";
      return;
    }
    var scanned := ScanInt(inputText);
    if scanned.None? {
      m.errorMsg := "Invalid port number";
      return;
    }
    var newLocalPort := scanned.value;
    if newLocalPort < 1 || newLocalPort > 65535 {
      m.errorMsg := "Port must be between 1 and 65535";
      return;
    }
    m.discoveryPorts := m.discoveryPorts[m.discoveryEditIndex := m.discoveryPorts[m.discoveryEditIndex].(LocalPort := newLocalPort)];
    m.discoveryEditMode := false;
    m.errorMsg := "";
  }

  /** Confirming the text that edit mode started with keeps a valid local
      port as it was. */
  lemma EditUnchangedKeepsPort(localPort: int)
    requires 1 <= localPort <= 65535
    ensures TrimSpace(FormatInt(localPort)) == FormatInt(localPort)
    ensures ScanInt(FormatInt(localPort)) == Some(localPort)
  {
    var d := FormatInt(localPort);
    assert d == Digits(localPort);
    assert !IsSpace(d[0]) && !IsSpace(d[|d| - 1]);
    TrimSpaceIdentity(d);
    ScanFormatRoundTrip(localPort);
  }

  // ---------------------------------------------------------------------
  // handleClusterSelection: building the port rows

  /** The first config of the cluster for this namespace, service and
      remote port, at or after i; -1 when there is none. */
  function ExistingIndexFrom(configs: seq<PortForwardConfig>, cluster: string, namespace: string, service: string, port: int, i: nat): (r: int)
    requires i <= |configs|
    ensures r == -1 || i <= r < |configs|
    ensures r >= 0 ==> ConfigFor(configs[r], cluster, namespace, service, port)
    ensures r >= 0 ==> forall k :: i <= k < r ==> !ConfigFor(configs[k], cluster, namespace, service, port)
    ensures r == -1 <==> forall k :: i <= k < |configs| ==> !ConfigFor(configs[k], cluster, namespace, service, port)
    decreases |configs| - i
  {
    if i == |configs| then -1
    else if ConfigFor(configs[i], cluster, namespace, service, port) then i
    else ExistingIndexFrom(configs, cluster, namespace, service, port, i + 1)
  }

  predicate ConfigFor(cfg: PortForwardConfig, cluster: string, namespace: string, service: string, port: int) {
    cfg.Context == cluster && cfg.Namespace == namespace && cfg.Service == service && cfg.PortRemote == port
  }

  /** A row agrees with the configs: it is pre-selected exactly when it has
      an existing config, which is then a config of the cluster for the
      row's namespace, service and remote port and gives the local port;
      without one, no config forwards that port and the local port is the
      remote port. */
  predicate Faithful(p: PortSelection, cluster: string, configs: seq<PortForwardConfig>) {
    (p.Selected <==> p.ExistingConfigIndex != -1)
    && (p.ExistingConfigIndex != -1 ==>
          0 <= p.ExistingConfigIndex < |configs|
          && ConfigFor(configs[p.ExistingConfigIndex], cluster, p.ServiceNamespace, p.ServiceName, p.Port.Port)
          && p.LocalPort == configs[p.ExistingConfigIndex].PortLocal)
    && (p.ExistingConfigIndex == -1 ==>
          p.LocalPort == p.Port.Port
          && forall k :: 0 <= k < |configs| ==> !ConfigFor(configs[k], cluster, p.ServiceNamespace, p.ServiceName, p.Port.Port))
  }

  /** The row offered for one port of one service. */
  function SelectionOf(cluster: string, service: ServiceInfo, port: ServicePort, configs: seq<PortForwardConfig>): PortSelection {
    var e := ExistingIndexFrom(configs, cluster, service.Namespace, service.Name, port.Port, 0);
    PortSelection(
      service.Name, service.Namespace, service.Type, service.Labels,
      ServicePortInfo(port.Name, port.Port, port.TargetPort, port.Protocol),
      e != -1,
      if e == -1 then port.Port else configs[e].PortLocal,
      PortID(cluster, service, port),
      e)
  }

  /** The row for a port agrees with the configs and carries the port's ID. */
  lemma SelectionOfFaithful(cluster: string, service: ServiceInfo, port: ServicePort, configs: seq<PortForwardConfig>)
    ensures Faithful(SelectionOf(cluster, service, port, configs), cluster, configs)
    ensures SelectionOf(cluster, service, port, configs).GeneratedID == PortID(cluster, service, port)
  {
  }

  /** The rows for the first n ports of one service. */
  function ServiceSelections(cluster: string, service: ServiceInfo, configs: seq<PortForwardConfig>, n: nat): (r: seq<PortSelection>)
    requires n <= |service.Ports|
    ensures |r| == n
  {
    if n == 0 then [] else ServiceSelections(cluster, service, configs, n - 1) + [SelectionOf(cluster, service, service.Ports[n - 1], configs)]
  }

  /** Every row of one service agrees with the configs. */
  lemma {:induction false} ServiceSelectionsFaithful(cluster: string, service: ServiceInfo, configs: seq<PortForwardConfig>, n: nat)
    requires n <= |service.Ports|
    ensures forall p :: p in ServiceSelections(cluster, service, configs, n) ==> Faithful(p, cluster, configs)
  {
    if n > 0 {
      ServiceSelectionsFaithful(cluster, service, configs, n - 1);
      SelectionOfFaithful(cluster, service, service.Ports[n - 1], configs);
    }
  }

  /** The number of ports of the services. */
  function PortCount(services: seq<DiscoveredService>): nat {
    if services == [] then 0 else PortCount(services[..|services| - 1]) + |services[|services| - 1].ServiceInfo.Ports|
  }

  /** One row per (service, port), services in order, ports in order. */
  function Selections(cluster: string, services: seq<DiscoveredService>, configs: seq<PortForwardConfig>): (r: seq<PortSelection>)
    ensures |r| == PortCount(services)
  {
    if services == [] then []
    else
      var last := services[|services| - 1].ServiceInfo;
      Selections(cluster, services[..|services| - 1], configs) + ServiceSelections(cluster, last, configs, |last.Ports|)
  }

  /** Every row agrees with the configs: pre-selected exactly when a config
      of the cluster already forwards that port, with that config's index
      and local port. */
  lemma {:induction false} SelectionsMatchConfigs(cluster: string, services: seq<DiscoveredService>, configs: seq<PortForwardConfig>)
    ensures forall p :: p in Selections(cluster, services, configs) ==> Faithful(p, cluster, configs)
  {
    if services != [] {
      SelectionsMatchConfigs(cluster, services[..|services| - 1], configs);
      var last := services[|services| - 1].ServiceInfo;
      ServiceSelectionsFaithful(cluster, last, configs, |last.Ports|);
    }
  }

  /** The inner search of handleClusterSelection. */
  method FindExisting(configs: seq<PortForwardConfig>, cluster: string, namespace: string, service: string, port: int) returns (index: int)
    ensures index == ExistingIndexFrom(configs, cluster, namespace, service, port, 0)
  {
    var i := 0;
    while i < |configs|
      invariant 0 <= i <= |configs|
      invariant ExistingIndexFrom(configs, cluster, namespace, service, port, 0) == ExistingIndexFrom(configs, cluster, namespace, service, port, i)
    {
      if ConfigFor(configs[i], cluster, namespace, service, port) {
        return i;
      }
      i := i + 1;
    }
    return -1;
  }

  /** The body of the port loop of handleClusterSelection: one row. */
  method BuildSelection(cluster: string, service: ServiceInfo, port: ServicePort, configs: seq<PortForwardConfig>) returns (row: PortSelection)
    ensures row == SelectionOf(cluster, service, port, configs)
  {
    var generatedID := GenerateServicePortID(cluster, service, port);
    var localPort := port.Port;
    var existingConfigIndex := FindExisting(configs, cluster, service.Namespace, service.Name, port.Port);
    if existingConfigIndex != -1 {
      localPort := configs[existingConfigIndex].PortLocal;
    }
    row := PortSelection(
      service.Name, service.Namespace, service.Type, service.Labels,
      ServicePortInfo(port.Name, port.Port, port.TargetPort, port.Protocol),
      existingConfigIndex != -1, localPort, generatedID, existingConfigIndex);
  }

  /** The rows for one service's ports. */
  method BuildServiceSelections(cluster: string, service: ServiceInfo, configs: seq<PortForwardConfig>) returns (rows: seq<PortSelection>)
    ensures rows == ServiceSelections(cluster, service, configs, |service.Ports|)
  {
    rows := [];
    var j := 0;
    while j < |service.Ports|
      invariant 0 <= j <= |service.Ports|
      invariant rows == ServiceSelections(cluster, service, configs, j)
    {
      rows := AppendSelection(rows, cluster, service, configs, j);
      j := j + 1;
    }
  }

  /** One pass of the port loop: the row of port j joins the rows of the ports before it. */
  method AppendSelection(rows: seq<PortSelection>, cluster: string, service: ServiceInfo, configs: seq<PortForwardConfig>, j: nat)
    returns (rows': seq<PortSelection>)
    requires j < |service.Ports| && rows == ServiceSelections(cluster, service, configs, j)
    ensures rows' == ServiceSelections(cluster, service, configs, j + 1)
  {
    var row := BuildSelection(cluster, service, service.Ports[j], configs);
    rows' := rows + [row];
  }

  /** The port-selection loop of handleClusterSelection. */
  method BuildPortSelections(cluster: string, services: seq<DiscoveredService>, configs: seq<PortForwardConfig>) returns (portSelections: seq<PortSelection>)
    ensures portSelections == Selections(cluster, services, configs)
  {
    portSelections := [];
    var i := 0;
    while i < |services|
      invariant 0 <= i <= |services|
      invariant portSelections == Selections(cluster, services[..i], configs)
    {
      assert services[..i + 1][..i] == services[..i];
      var rows := BuildServiceSelections(cluster, services[i].ServiceInfo, configs);
      portSelections := portSelections + rows;
      i := i + 1;
    }
    assert services[..|services|] == services;
  }

  /** The namespace/service keys of the cluster's configs. */
  function ExistingServices(configs: seq<PortForwardConfig>, cluster: string): set<string> {
    set c | c in configs && c.Context == cluster :: Prune.Key(c.Namespace, c.Service)
  }

  method BuildExistingServices(configs: seq<PortForwardConfig>, cluster: string) returns (keys: set<string>)
    ensures keys == ExistingServices(configs, cluster)
  {
    keys := {};
    var i := 0;
    while i < |configs|
      invariant 0 <= i <= |configs|
      invariant keys == ExistingServices(configs[..i], cluster)
    {
      assert configs[..i + 1] == configs[..i] + [configs[i]];
      if configs[i].Context == cluster {
        keys := keys + {Prune.Key(configs[i].Namespace, configs[i].Service)};
      }
      i := i + 1;
    }
    assert configs[..|configs|] == configs;
  }

  /** handleClusterSelection, given what discovery in the chosen cluster (all
      namespaces) returned; an error is given as its message. */
  method HandleClusterSelection(m: Model, cursor: nat, discovered: Result<DiscoveryResult, string>)
    modifies m`errorMsg, m`statusMsg, m`discoverySelectedCluster, m`discoveryExistingServices, m`discoveryPorts, m`discoveryPhase
    ensures cursor >= |m.discoveryClusters| ==>
      m.errorMsg == "Invalid cluster selection"
      && unchanged(m`statusMsg, m`discoverySelectedCluster, m`discoveryPorts, m`discoveryPhase, m`discoveryExistingServices)
    ensures cursor < |m.discoveryClusters| ==> m.discoverySelectedCluster == cursor
    ensures cursor < |m.discoveryClusters| && (discovered.Err? || discovered.value.TotalCount == 0) ==>
      unchanged(m`discoveryPorts, m`discoveryPhase, m`discoveryExistingServices)
      && m.statusMsg == "Discovering services in cluster '" + m.discoveryClusters[cursor] + "'..."
      && m.errorMsg == (if discovered.Err? then "Service discovery failed: " + discovered.error
                        else "No services found in cluster '" + m.discoveryClusters[cursor] + "'")
    ensures cursor < |m.discoveryClusters| && discovered.Ok? && discovered.value.TotalCount != 0 ==>
      var cluster := m.discoveryClusters[cursor];
      m.discoveryExistingServices == ExistingServices(m.configStore.configs, cluster)
      && m.discoveryPorts == Selections(cluster, discovered.value.Services, m.configStore.configs)
      && m.discoveryPhase == PhaseServiceSelection
      && m.errorMsg == old(m.errorMsg)
      && m.statusMsg == "Found " + FormatInt(|m.discoveryPorts|) + " ports in cluster '" + cluster + "'"
  {
    if cursor >= |m.discoveryClusters| {
      m.errorMsg := "Invalid cluster selection";
      return;
    }
    var selectedCluster := m.discoveryClusters[cursor];
    m.discoverySelectedCluster := cursor;
    m.statusMsg := "Discovering services in cluster '" + selectedCluster + "'...";
    if discovered.Err? {
      m.errorMsg := "Service discovery failed: " + discovered.error;
      return;
    }
    var result := discovered.value;
    if result.TotalCount == 0 {
      m.errorMsg := "No services found in cluster '" + selectedCluster + "'";
      return;
    }
    var existingConfigs := m.configStore.configs;
    m.discoveryExistingServices := BuildExistingServices(existingConfigs, selectedCluster);
    m.discoveryPorts := BuildPortSelections(selectedCluster, result.Services, existingConfigs);
    m.discoveryPhase := PhaseServiceSelection;
    m.statusMsg := "Found " + FormatInt(|m.discoveryPorts|) + " ports in cluster '" + selectedCluster + "'";
  }

  // ---------------------------------------------------------------------
  // handleServiceSelectionConfirm

  /** The store rows, the projects, the counters and the last error message
      while the confirm loop runs. */
  datatype ConfirmState = ConfirmState(
    rows: seq<PortForwardConfig>,
    projects: seq<Project>,
    added: nat,
    removed: nat,
    lastError: Option<string>)

  /** The message of a store error. */
  function SqlErrorText(e: Sqlite.SqlError): string {
    match e
    case DuplicateID(_) => "failed to add port forward: UNIQUE constraint failed: port_forwards.id"
    case NotFound(id) => "port forward with ID '" + id + "' not found"
  }

  /** The config a selected new row becomes. */
  function NewConfig(cluster: string, p: PortSelection): PortForwardConfig {
    PortForwardConfig(p.GeneratedID, cluster, p.ServiceNamespace, p.ServiceName, p.Port.Port, p.LocalPort)
  }

  /** One row of the confirm loop. A deselected existing row deletes the
      config that lookup holds at its ExistingConfigIndex (and the config's
      project memberships); a selected new row adds its config. */
  function Step(st: ConfirmState, p: PortSelection, cluster: string, lookup: seq<PortForwardConfig>): ConfirmState {
    if p.ExistingConfigIndex != -1 then
      if p.Selected then st
      else
        match Sqlite.Get(lookup, p.ExistingConfigIndex)
        case None => st
        case Some(cfg) =>
          match Sqlite.Delete(st.rows, cfg.ID)
          case Err(e) => st.(lastError := Some("Failed to remove port: " + SqlErrorText(e)))
          case Ok(rows) => st.(rows := rows, projects := Store.WithoutEverywhere(st.projects, cfg.ID), removed := st.removed + 1)
    else if p.Selected then
      match Sqlite.Add(st.rows, NewConfig(cluster, p))
      case Err(e) => st.(lastError := Some("Failed to add port: " + SqlErrorText(e)))
      case Ok(rows) => st.(rows := rows, added := st.added + 1)
    else st
  }

  /** The loop as written: ExistingConfigIndex is looked up in the rows as
      they are at that point, after the deletes made by earlier rows. */
  function AsWritten(st: ConfirmState, ports: seq<PortSelection>, cluster: string): ConfirmState {
    if ports == [] then st
    else
      var before := AsWritten(st, ports[..|ports| - 1], cluster);
      Step(before, ports[|ports| - 1], cluster, before.rows)
  }

  /** The loop as intended: ExistingConfigIndex is looked up in the rows
      the indices were computed from. */
  function Resolved(st: ConfirmState, ports: seq<PortSelection>, cluster: string, snapshot: seq<PortForwardConfig>): ConfirmState {
    if ports == [] then st
    else Step(Resolved(st, ports[..|ports| - 1], cluster, snapshot), ports[|ports| - 1], cluster, snapshot)
  }

  /** The ID a row asks to delete: that of the snapshot config at its
      index, for a deselected existing row with an index in range. */
  function DeselectedBy(snapshot: seq<PortForwardConfig>, p: PortSelection): set<string> {
    if p.ExistingConfigIndex != -1 && !p.Selected && 0 <= p.ExistingConfigIndex < |snapshot|
    then {snapshot[p.ExistingConfigIndex].ID} else {}
  }

  /** The IDs the user deselected. */
  function DeselectedIDs(snapshot: seq<PortForwardConfig>, ports: seq<PortSelection>): set<string> {
    if ports == [] then {}
    else DeselectedIDs(snapshot, ports[..|ports| - 1]) + DeselectedBy(snapshot, ports[|ports| - 1])
  }

  /** The config a row asks to add: that of a selected new row. */
  function AddedBy(cluster: string, p: PortSelection): set<PortForwardConfig> {
    if p.ExistingConfigIndex == -1 && p.Selected then {NewConfig(cluster, p)} else {}
  }

  /** The configs the selected new rows stand for. */
  function NewConfigs(cluster: string, ports: seq<PortSelection>): set<PortForwardConfig> {
    if ports == [] then {}
    else NewConfigs(cluster, ports[..|ports| - 1]) + AddedBy(cluster, ports[|ports| - 1])
  }

  /** cur holds exactly the snapshot configs whose ID is not in deleted,
      plus only configs from added. */
  predicate KeepsExactly(snapshot: seq<PortForwardConfig>, cur: seq<PortForwardConfig>, deleted: set<string>, added: set<PortForwardConfig>) {
    (forall c :: c in snapshot ==> (c in cur <==> c.ID !in deleted))
    && (forall c :: c in cur && c !in snapshot ==> c in added)
  }

  /** One resolved step keeps KeepsExactly, with the row's ID or config
      added to the sets. */
  lemma ResolvedStep(snapshot: seq<PortForwardConfig>, st: ConfirmState, p: PortSelection, cluster: string,
                     deleted: set<string>, added: set<PortForwardConfig>)
    requires KeepsExactly(snapshot, st.rows, deleted, added)
    requires p.ExistingConfigIndex == -1 && p.Selected ==> p.GeneratedID !in IDs(snapshot)
    ensures KeepsExactly(snapshot, Step(st, p, cluster, snapshot).rows,
                         deleted + DeselectedBy(snapshot, p), added + AddedBy(cluster, p))
  {
    if p.ExistingConfigIndex != -1 && !p.Selected && 0 <= p.ExistingConfigIndex < |snapshot| {
    } else if p.ExistingConfigIndex == -1 && p.Selected {
      var cfg := NewConfig(cluster, p);
      forall c | c in snapshot
        ensures c != cfg
      {
        var j :| 0 <= j < |snapshot| && snapshot[j] == c;
        assert IDs(snapshot)[j] == c.ID;
      }
      var r := Step(st, p, cluster, snapshot);
      if r != st {
        forall c | c in r.rows
          ensures c in st.rows || c == cfg
        {
          assert c in multiset(r.rows);
        }
      }
    }
  }

  /** With indices resolved against the snapshot, an original config stays
      exactly when its ID was not deselected, provided no new row reuses an
      ID of the snapshot; every other row left is a config of a selected new
      row. */
  lemma {:induction false} ResolvedRemovesExactlyDeselected(rows: seq<PortForwardConfig>, projects: seq<Project>, ports: seq<PortSelection>, cluster: string)
    requires forall k :: 0 <= k < |ports| && ports[k].ExistingConfigIndex == -1 && ports[k].Selected ==> ports[k].GeneratedID !in IDs(rows)
    ensures KeepsExactly(rows, Resolved(ConfirmState(rows, projects, 0, 0, None), ports, cluster, rows).rows,
                         DeselectedIDs(rows, ports), NewConfigs(cluster, ports))
  {
    if ports != [] {
      var init := ports[..|ports| - 1];
      assert forall k :: 0 <= k < |init| ==> init[k] == ports[k];
      ResolvedRemovesExactlyDeselected(rows, projects, init, cluster);
      ResolvedStep(rows, Resolved(ConfirmState(rows, projects, 0, 0, None), init, cluster, rows), ports[|ports| - 1], cluster,
                   DeselectedIDs(rows, init), NewConfigs(cluster, init));
    }
  }

  /** Deleting the first of three rows with distinct IDs leaves the other two. */
  lemma DeleteFirstOfThree(a: PortForwardConfig, b: PortForwardConfig, c: PortForwardConfig)
    requires a.ID != b.ID && a.ID != c.ID
    ensures Sqlite.Delete([a, b, c], a.ID) == Ok([b, c])
  {
    assert IDs([a, b, c])[0] == a.ID;
    assert [a, b, c][..2] == [a, b] && [a, b][..1] == [a] && [a][..0] == [];
    assert Sqlite.OtherRows([a], a.ID) == [];
    assert Sqlite.OtherRows([a, b], a.ID) == [b];
    assert Sqlite.OtherRows([a, b, c], a.ID) == [b, c];
  }

  /** Deleting the second of two rows with distinct IDs leaves the first. */
  lemma DeleteSecondOfTwo(b: PortForwardConfig, c: PortForwardConfig)
    requires b.ID != c.ID
    ensures Sqlite.Delete([b, c], c.ID) == Ok([b])
  {
    assert IDs([b, c])[1] == c.ID;
    assert [b, c][..1] == [b] && [b][..0] == [];
    assert Sqlite.OtherRows([b], c.ID) == [b];
    assert Sqlite.OtherRows([b, c], c.ID) == [b];
  }

  /** Deleting the first of two rows with distinct IDs leaves the second. */
  lemma DeleteFirstOfTwo(b: PortForwardConfig, c: PortForwardConfig)
    requires b.ID != c.ID
    ensures Sqlite.Delete([b, c], b.ID) == Ok([c])
  {
    assert IDs([b, c])[0] == b.ID;
    assert [b, c][..1] == [b] && [b][..0] == [];
    assert Sqlite.OtherRows([b], b.ID) == [];
    assert Sqlite.OtherRows([b, c], b.ID) == [c];
  }

  /** A deselected existing row whose index finds cfg in the lookup rows
      removes cfg's ID from the rows. */
  lemma StepRemoves(st: ConfirmState, p: PortSelection, cluster: string, lookup: seq<PortForwardConfig>, cfg: PortForwardConfig, rest: seq<PortForwardConfig>)
    requires p.ExistingConfigIndex != -1 && !p.Selected
    requires Sqlite.Get(lookup, p.ExistingConfigIndex) == Some(cfg)
    requires Sqlite.Delete(st.rows, cfg.ID) == Ok(rest)
    ensures Step(st, p, cluster, lookup).rows == rest
  {
  }

  /** Rows for configs a, b, c (indices 0, 1, 2) where the user deselects
      a and b and keeps c. */
  predicate Scenario(rows: seq<PortForwardConfig>, ports: seq<PortSelection>) {
    |rows| == 3 && |ports| == 3
    && rows[0].ID != rows[1].ID && rows[1].ID != rows[2].ID && rows[0].ID != rows[2].ID
    && ports[0].ExistingConfigIndex == 0 && !ports[0].Selected
    && ports[1].ExistingConfigIndex == 1 && !ports[1].Selected
    && ports[2].ExistingConfigIndex == 2 && ports[2].Selected
  }

  /** As written, deselecting a and b while keeping c deletes a and c and
      keeps b: after a is gone, index 1 designates c. */
  lemma AsWrittenDeletesWrongRow(rows: seq<PortForwardConfig>, projects: seq<Project>, ports: seq<PortSelection>, cluster: string)
    requires Scenario(rows, ports)
    ensures AsWritten(ConfirmState(rows, projects, 0, 0, None), ports, cluster).rows == [rows[1]]
  {
    var a, b, c := rows[0], rows[1], rows[2];
    assert rows == [a, b, c];
    var st := ConfirmState(rows, projects, 0, 0, None);
    DeleteFirstOfThree(a, b, c);
    DeleteSecondOfTwo(b, c);
    assert ports[..1][..0] == [];
    StepRemoves(st, ports[0], cluster, st.rows, a, [b, c]);
    assert AsWritten(st, ports[..1][..0], cluster) == st && ports[..1][0] == ports[0];
    var w1 := AsWritten(st, ports[..1], cluster);
    assert w1.rows == [b, c];
    assert ports[..2][..1] == ports[..1];
    StepRemoves(w1, ports[1], cluster, w1.rows, c, [b]);
    var w2 := AsWritten(st, ports[..2], cluster);
    assert w2.rows == [b];
    assert ports[..3][..2] == ports[..2] && ports[..3] == ports;
  }

  /** Resolved against the snapshot, the same rows delete a and b and keep c. */
  lemma ResolvedDeletesDeselected(rows: seq<PortForwardConfig>, projects: seq<Project>, ports: seq<PortSelection>, cluster: string)
    requires Scenario(rows, ports)
    ensures Resolved(ConfirmState(rows, projects, 0, 0, None), ports, cluster, rows).rows == [rows[2]]
  {
    var a, b, c := rows[0], rows[1], rows[2];
    assert rows == [a, b, c];
    var st := ConfirmState(rows, projects, 0, 0, None);
    DeleteFirstOfThree(a, b, c);
    DeleteFirstOfTwo(b, c);
    assert ports[..1][..0] == [];
    StepRemoves(st, ports[0], cluster, rows, a, [b, c]);
    assert Resolved(st, ports[..1][..0], cluster, rows) == st && ports[..1][0] == ports[0];
    var r1 := Resolved(st, ports[..1], cluster, rows);
    assert r1.rows == [b, c];
    assert ports[..2][..1] == ports[..1];
    StepRemoves(r1, ports[1], cluster, rows, b, [c]);
    var r2 := Resolved(st, ports[..2], cluster, rows);
    assert r2.rows == [c];
    assert ports[..3][..2] == ports[..2] && ports[..3] == ports;
    assert Step(r2, ports[2], cluster, rows) == r2;
    assert Resolved(st, ports, cluster, rows) == Step(Resolved(st, ports[..2], cluster, rows), ports[2], cluster, rows);
  }

  /** The status line: "No changes made", or the non-zero counts. */
  function StatusText(added: nat, removed: nat): string {
    var a := FormatInt(added) + " added";
    var d := FormatInt(removed) + " removed";
    if added > 0 && removed > 0 then "Port forwards: " + a + ", " + d
    else if added > 0 then "Port forwards: " + a
    else if removed > 0 then "Port forwards: " + d
    else "No changes made"
  }

  /** The status line reads "No changes made" exactly when nothing was added
      or removed; otherwise it starts with "Port forwards: ". */
  lemma StatusTextNoChanges(added: nat, removed: nat)
    ensures StatusText(added, removed) == "No changes made" <==> added == 0 && removed == 0
    ensures added > 0 || removed > 0 ==> HasPrefix(StatusText(added, removed), "Port forwards: ")
  {
    var r := StatusText(added, removed);
    if added > 0 || removed > 0 {
      assert r[..|"Port forwards: "|] == "Port forwards: ";
      assert r[0] != "No changes made"[0];
    }
  }

  /** A deselected existing row: the config at its index in the lookup
      rows is deleted with its project memberships, or the failure is
      recorded. */
  method RemoveDeselected(st: ConfirmState, p: PortSelection, cluster: string, lookup: seq<PortForwardConfig>)
    returns (r: ConfirmState)
    requires p.ExistingConfigIndex != -1 && !p.Selected
    ensures r == Step(st, p, cluster, lookup)
  {
    r := st;
    var existing := Sqlite.Get(lookup, p.ExistingConfigIndex);
    if existing.Some? {
      var deleted := Sqlite.Delete(st.rows, existing.value.ID);
      if deleted.Err? {
        r := st.(lastError := Some("Failed to remove port: " + SqlErrorText(deleted.error)));
      } else {
        r := st.(rows := deleted.value, projects := Store.WithoutEverywhere(st.projects, existing.value.ID),
                 removed := st.removed + 1);
      }
    }
  }

  /** A selected new row: its config is added, or the failure is recorded. */
  method AddSelected(st: ConfirmState, p: PortSelection, cluster: string, lookup: seq<PortForwardConfig>)
    returns (r: ConfirmState)
    requires p.ExistingConfigIndex == -1 && p.Selected
    ensures r == Step(st, p, cluster, lookup)
  {
    var added := Sqlite.Add(st.rows, NewConfig(cluster, p));
    if added.Err? {
      r := st.(lastError := Some("Failed to add port: " + SqlErrorText(added.error)));
    } else {
      r := st.(rows := added.value, added := st.added + 1);
    }
  }

  /** One row of handleServiceSelectionConfirm's loop, with the row's
      ExistingConfigIndex looked up in lookup; rows that are neither
      deselected existing nor selected new change nothing. */
  method ConfirmRow(st: ConfirmState, p: PortSelection, cluster: string, lookup: seq<PortForwardConfig>)
    returns (r: ConfirmState)
    ensures r == Step(st, p, cluster, lookup)
  {
    if p.ExistingConfigIndex != -1 && !p.Selected {
      r := RemoveDeselected(st, p, cluster, lookup);
    } else if p.ExistingConfigIndex == -1 && p.Selected {
      r := AddSelected(st, p, cluster, lookup);
    } else {
      r := st;
    }
  }

  /** The loop of handleServiceSelectionConfirm over the rows as written:
      each deselected existing row's index is looked up with Get, which
      reads the store's rows as the earlier rows left them (see
      AsWrittenDeletesWrongRow, and Resolved for the loop as intended). */
  method ConfirmAll(st0: ConfirmState, ports: seq<PortSelection>, cluster: string)
    returns (st: ConfirmState)
    ensures st == AsWritten(st0, ports, cluster)
  {
    st := st0;
    var i := 0;
    while i < |ports|
      invariant 0 <= i <= |ports|
      invariant st == AsWritten(st0, ports[..i], cluster)
    {
      assert ports[..i + 1][..i] == ports[..i];
      st := ConfirmRow(st, ports[i], cluster, st.rows);
      i := i + 1;
    }
    assert ports[..|ports|] == ports;
  }

  /** handleServiceSelectionConfirm: the configs and projects the loop as written leaves
      are the store's, the last failure is the error message, and the
      counts make the status line. Saving is a no-op on the SQLite store. */
  method HandleServiceSelectionConfirm(m: Model)
    requires 0 <= m.discoverySelectedCluster < |m.discoveryClusters|
    modifies m.configStore`configs, m.configStore`projects, m`errorMsg, m`statusMsg, m`uiState
    ensures var st := AsWritten(ConfirmState(old(m.configStore.configs), old(m.configStore.projects), 0, 0, None),
                                m.discoveryPorts, m.discoveryClusters[m.discoverySelectedCluster]);
      m.configStore.configs == st.rows && m.configStore.projects == st.projects
      && m.errorMsg == (if st.lastError.Some? then st.lastError.value else old(m.errorMsg))
      && m.statusMsg == StatusText(st.added, st.removed)
      && m.uiState == StatePortForwards
  {
    var clusterName := m.discoveryClusters[m.discoverySelectedCluster];
    var st := ConfirmAll(ConfirmState(m.configStore.configs, m.configStore.projects, 0, 0, None), m.discoveryPorts, clusterName);
    m.configStore.configs := st.rows;
    m.configStore.projects := st.projects;
    if st.lastError.Some? {
      m.errorMsg := st.lastError.value;
    }
    m.statusMsg := StatusText(st.added, st.removed);
    m.uiState := StatePortForwards;
  }
}
