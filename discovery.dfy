/** Service discovery values and ID generation (pkg/discovery/types.go).

    A discovered Kubernetes service gets a readable ID of the form
    <context>.<type>.<discriminator>, each part cleaned by sanitizeIDPart.
    The functions here are the specifications; the methods follow the loops
    of the Go code and are proved equal to them. */
module Discovery {
  import opened Common
  import opened GoStrings

  datatype ServicePort = ServicePort(Name: string, Port: int, TargetPort: string, Protocol: string)

  datatype ServiceInfo = ServiceInfo(
    Name: string,
    Namespace: string,
    Ports: seq<ServicePort>,
    Labels: map<string, string>,        // a nil map reads like an empty one
    Annotations: map<string, string>,
    Type: string)

  datatype DiscoveredService = DiscoveredService(ServiceInfo: ServiceInfo, Selected: bool, GeneratedID: string)

  datatype DiscoveryResult = DiscoveryResult(
    Services: seq<DiscoveredService>,
    SelectedCount: int,
    TotalCount: int,
    Context: string,
    NamespaceFilter: string)

  datatype Options = Options(NamespaceFilter: string, Context: string, OutputFile: string, AcceptAll: bool, Verbose: bool)

  // ---------------------------------------------------------------------
  // sanitizeIDPart

  predicate IsAlnum(c: char) {
    ('a' <= c <= 'z') || ('A' <= c <= 'Z') || ('0' <= c <= '9')
  }

  predicate IsSeparator(c: char) {
    c == '-' || c == '_' || c == '.'
  }

  /** Only ASCII letters, digits and hyphens. */
  predicate IDChars(s: string) {
    forall i :: 0 <= i < |s| ==> IsAlnum(s[i]) || s[i] == '-'
  }

  predicate NoDoubleHyphen(s: string) {
    forall i :: 0 <= i < |s| - 1 ==> !(s[i] == '-' && s[i + 1] == '-')
  }

  /** What sanitizeIDPart promises: non-empty, [A-Za-z0-9-] only, no hyphen
      at either end and never two hyphens in a row. */
  predicate IDPartShape(s: string) {
    s != [] && IDChars(s) && s[0] != '-' && s[|s| - 1] != '-' && NoDoubleHyphen(s)
  }

  /** The string the first loop of sanitizeIDPart builds from s: letters and
      digits are kept, a separator becomes one hyphen unless the text so far
      is empty or already ends in a hyphen, anything else is dropped. */
  function Collapse(s: string): string {
    if s == [] then []
    else
      var r := Collapse(s[..|s| - 1]);
      var c := s[|s| - 1];
      if IsAlnum(c) then r + [c]
      else if IsSeparator(c) then (if |r| > 0 && r[|r| - 1] != '-' then r + ['-'] else r)
      else r
  }

  /** The second loop: drop trailing hyphens. */
  function DropTrailingHyphens(s: string): string {
    if |s| > 0 && s[|s| - 1] == '-' then DropTrailingHyphens(s[..|s| - 1]) else s
  }

  /** sanitizeIDPart as a value. */
  function Sanitize(s: string): string {
    var t := DropTrailingHyphens(Collapse(s));
    if t == [] then "unknown" else t
  }

  /** The first loop yields letters, digits and single hyphens, never a
      leading hyphen. */
  lemma {:induction false} CollapseShape(s: string)
    ensures IDChars(Collapse(s)) && NoDoubleHyphen(Collapse(s))
    ensures Collapse(s) == [] || Collapse(s)[0] != '-'
  {
    if s != [] {
      CollapseShape(s[..|s| - 1]);
    }
  }

  /** The second loop removes a suffix of hyphens and nothing else. */
  lemma {:induction false} DropTrailingShape(s: string)
    ensures |DropTrailingHyphens(s)| <= |s| && DropTrailingHyphens(s) == s[..|DropTrailingHyphens(s)|]
    ensures DropTrailingHyphens(s) == [] || DropTrailingHyphens(s)[|DropTrailingHyphens(s)| - 1] != '-'
  {
    if |s| > 0 && s[|s| - 1] == '-' {
      DropTrailingShape(s[..|s| - 1]);
    }
  }

  /** What sanitizeIDPart promises of its result, for every input. */
  lemma SanitizeShape(s: string)
    ensures IDPartShape(Sanitize(s))
  {
    var c := Collapse(s);
    CollapseShape(s);
    DropTrailingShape(c);
    var t := DropTrailingHyphens(c);
    assert forall i :: 0 <= i < |t| ==> t[i] == c[i];
  }

  /** The letters and digits of s, in order. */
  function Alnums(s: string): (r: string)
    ensures |r| <= |s|
  {
    if s == [] then []
    else if IsAlnum(s[|s| - 1]) then Alnums(s[..|s| - 1]) + [s[|s| - 1]]
    else Alnums(s[..|s| - 1])
  }

  lemma {:induction false} CollapseAlnums(s: string)
    ensures Alnums(Collapse(s)) == Alnums(s)
    ensures Alnums(s) == [] ==> Collapse(s) == []
  {
    if s != [] {
      var init := s[..|s| - 1];
      CollapseAlnums(init);
      var r := Collapse(init);
      var c := s[|s| - 1];
      if IsAlnum(c) {
        assert (r + [c])[..|r + [c]| - 1] == r;
      } else if IsSeparator(c) && |r| > 0 && r[|r| - 1] != '-' {
        assert (r + ['-'])[..|r + ['-']| - 1] == r;
      }
    }
  }

  lemma {:induction false} DropTrailingAlnums(s: string)
    ensures Alnums(DropTrailingHyphens(s)) == Alnums(s)
  {
    if |s| > 0 && s[|s| - 1] == '-' {
      DropTrailingAlnums(s[..|s| - 1]);
    }
  }

  /** sanitizeIDPart keeps exactly the letters and digits of its input, in
      order, and answers "unknown" exactly when there are none. */
  lemma SanitizeContent(s: string)
    ensures Alnums(s) == [] ==> Sanitize(s) == "unknown"
    ensures Alnums(s) != [] ==> Alnums(Sanitize(s)) == Alnums(s)
  {
    CollapseAlnums(s);
    DropTrailingAlnums(Collapse(s));
  }

  /** A string that already has the collapsed form is left alone by the first loop. */
  lemma {:induction false} CollapseFixed(t: string)
    requires IDChars(t) && NoDoubleHyphen(t) && (t == [] || t[0] != '-')
    ensures Collapse(t) == t
  {
    if t != [] {
      var init := t[..|t| - 1];
      assert forall i :: 0 <= i < |init| ==> init[i] == t[i];
      CollapseFixed(init);
      assert t == init + [t[|t| - 1]];
    }
  }

  /** sanitizeIDPart is idempotent. */
  lemma SanitizeIdempotent(s: string)
    ensures Sanitize(Sanitize(s)) == Sanitize(s)
  {
    var t := Sanitize(s);
    SanitizeShape(s);
    CollapseFixed(t);
  }

  /** The two loops of sanitizeIDPart. */
  method SanitizeIDPart(input: string) returns (result: string)
    ensures result == Sanitize(input)
  {
    result := "";
    var i := 0;
    while i < |input|
      invariant 0 <= i <= |input|
      invariant result == Collapse(input[..i])
    {
      assert input[..i + 1][..i] == input[..i];
      var ch := input[i];
      if IsAlnum(ch) {
        result := result + [ch];
      } else if ch == '-' || ch == '_' || ch == '.' {
        if |result| > 0 && result[|result| - 1] != '-' {
          result := result + "-";
        }
      }
      i := i + 1;
    }
    assert input[..|input|] == input;
    while |result| > 0 && result[|result| - 1] == '-'
      invariant DropTrailingHyphens(result) == DropTrailingHyphens(Collapse(input))
      decreases |result|
    {
      result := result[..|result| - 1];
    }
    if result == "" {
      result := "unknown";
    }
  }

  // ---------------------------------------------------------------------
  // contains / findSubstring

  /** contains: the short cuts of the Go expression, with findSubstring's
      scan standing for the last disjunct. */
  function Contains(str: string, substr: string): (r: bool)
    ensures r <==> IsSubstring(substr, str)
  {
    assert str == substr ==> OccursAt(substr, str, 0);
    assert |str| >= |substr| && str[..|substr|] == substr ==> OccursAt(substr, str, 0);
    assert |str| >= |substr| && str[|str| - |substr|..] == substr ==> OccursAt(substr, str, |str| - |substr|);
    |str| >= |substr|
    && (str == substr
        || (|str| > |substr|
            && (str[..|substr|] == substr
                || str[|str| - |substr|..] == substr
                || IsSubstring(substr, str))))
  }

  /** findSubstring: scan every offset. */
  method FindSubstring(str: string, substr: string) returns (found: bool)
    ensures found <==> IsSubstring(substr, str)
  {
    var i := 0;
    while i <= |str| - |substr|
      invariant 0 <= i
      invariant forall j :: 0 <= j < i ==> !OccursAt(substr, str, j)
    {
      if str[i..i + |substr|] == substr {
        assert OccursAt(substr, str, i);
        return true;
      }
      i := i + 1;
    }
    return false;
  }

  // ---------------------------------------------------------------------
  // detectServiceType

  const CommonTypes: seq<string> := [
    "mysql", "postgres", "postgresql", "redis", "mongodb", "mongo",
    "elasticsearch", "rabbitmq", "kafka", "zookeeper",
    "api", "web", "frontend", "backend", "service", "app",
    "grafana", "prometheus", "jaeger", "zipkin"]

  /** The index of the first of types[i..] that occurs in name, or -1. */
  function FirstTypeFrom(name: string, types: seq<string>, i: nat): (r: int)
    requires i <= |types|
    ensures r == -1 || i <= r < |types|
    ensures r >= 0 ==> IsSubstring(types[r], name) && forall k :: i <= k < r ==> !IsSubstring(types[k], name)
    ensures r == -1 ==> forall k :: i <= k < |types| ==> !IsSubstring(types[k], name)
    decreases |types| - i
  {
    if i == |types| then -1
    else if Contains(name, types[i]) then i
    else FirstTypeFrom(name, types, i + 1)
  }

  /** The label a type is read from, in priority order. */
  function LabelType(labels: map<string, string>): Option<string> {
    if "app" in labels then Some(labels["app"])
    else if "app.kubernetes.io/component" in labels then Some(labels["app.kubernetes.io/component"])
    else if "tier" in labels then Some(labels["tier"])
    else None
  }

  /** detectServiceType as a value: a label, else the first common type that
      occurs in the name (case-sensitively), else "service". */
  function ServiceTypeOf(service: ServiceInfo): string {
    match LabelType(service.Labels)
    case Some(v) => Sanitize(v)
    case None =>
      var k := FirstTypeFrom(service.Name, CommonTypes, 0);
      if k >= 0 then CommonTypes[k] else "service"
  }

  /** The loop of detectServiceType. */
  method DetectServiceType(service: ServiceInfo) returns (r: string)
    ensures r == ServiceTypeOf(service)
    ensures LabelType(service.Labels).Some? ==> r == Sanitize(LabelType(service.Labels).value)
    ensures LabelType(service.Labels).None? && r != "service" ==> r in CommonTypes && IsSubstring(r, service.Name)
  {
    var fromLabel := LabelType(service.Labels);
    if fromLabel.Some? {
      r := SanitizeIDPart(fromLabel.value);
      return;
    }
    var i := 0;
    while i < |CommonTypes|
      invariant 0 <= i <= |CommonTypes|
      invariant FirstTypeFrom(service.Name, CommonTypes, 0) == FirstTypeFrom(service.Name, CommonTypes, i)
    {
      if Contains(service.Name, CommonTypes[i]) {
        return CommonTypes[i];
      }
      i := i + 1;
    }
    return "service";
  }

  /** Every common type is a non-empty word without a dot. */
  lemma CommonTypeHasNoDot(k: int)
    requires 0 <= k < |CommonTypes|
    ensures '.' !in CommonTypes[k] && CommonTypes[k] != []
  {
  }

  /** No ID part produced by type detection contains a dot. */
  lemma ServiceTypeHasNoDot(service: ServiceInfo)
    ensures '.' !in ServiceTypeOf(service)
    ensures ServiceTypeOf(service) != []
  {
    match LabelType(service.Labels)
    case Some(v) =>
      SanitizeShape(v);
    case None =>
      var k := FirstTypeFrom(service.Name, CommonTypes, 0);
      if k >= 0 {
        CommonTypeHasNoDot(k);
      }
  }

  // ---------------------------------------------------------------------
  // generateServiceID

  /** A port name that adds nothing to the discriminator. */
  predicate PlainPortName(name: string) {
    name == "" || name == "http" || name == "tcp"
  }

  function Discriminator(serviceName: string, portName: string): string {
    Sanitize(serviceName) + (if PlainPortName(portName) then "" else "-" + Sanitize(portName))
  }

  /** generateServiceID as a value. */
  function ServiceID(context: string, service: ServiceInfo, port: ServicePort): string {
    Sanitize(context) + "." + ServiceTypeOf(service) + "." + Discriminator(service.Name, port.Name)
  }

  /** The three parts of a dotted ID: s cut at every '.'. */
  function SplitDots(s: string): (r: seq<string>)
    ensures |r| >= 1
  {
    if s == [] then [""]
    else
      var p := SplitDots(s[..|s| - 1]);
      if s[|s| - 1] == '.' then p + [""] else p[..|p| - 1] + [p[|p| - 1] + [s[|s| - 1]]]
  }

  lemma {:induction false} SplitNoDot(a: string)
    requires '.' !in a
    ensures SplitDots(a) == [a]
  {
    if a != [] {
      var init := a[..|a| - 1];
      assert forall c :: c in init ==> c in a;
      SplitNoDot(init);
      assert init + [a[|a| - 1]] == a;
    }
  }

  lemma {:induction false} SplitJoin(a: string, b: string)
    requires '.' !in b
    ensures SplitDots(a + "." + b) == SplitDots(a) + [b]
  {
    if b == [] {
      assert a + "." + b == a + ".";
      assert (a + ".")[..|a + "."| - 1] == a;
    } else {
      var init := b[..|b| - 1];
      assert forall c :: c in init ==> c in b;
      SplitJoin(a, init);
      var s := a + "." + b;
      assert s[..|s| - 1] == a + "." + init;
      assert init + [b[|b| - 1]] == b;
    }
  }

  /** A string of letters, digits and hyphens has no dot. */
  lemma IDCharsNoDot(s: string)
    requires IDChars(s)
    ensures '.' !in s
  {
    assert forall i :: 0 <= i < |s| ==> s[i] != '.';
  }

  lemma DiscriminatorHasNoDot(serviceName: string, portName: string)
    ensures '.' !in Discriminator(serviceName, portName)
  {
    var a := Sanitize(serviceName);
    SanitizeShape(serviceName);
    if PlainPortName(portName) {
      IDCharsNoDot(a);
    } else {
      var b := Sanitize(portName);
      SanitizeShape(portName);
      var d := a + "-" + b;
      assert IDChars(d) by {
        forall i | 0 <= i < |d| ensures IsAlnum(d[i]) || d[i] == '-' {
          if i < |a| {
            assert d[i] == a[i];
          } else if i > |a| {
            assert d[i] == b[i - |a| - 1];
          }
        }
      }
      IDCharsNoDot(d);
    }
  }

  /** An ID splits at its dots into exactly the sanitized context, the type
      and the discriminator: it has exactly two dots, and each part can be
      read back. */
  lemma ServiceIDParts(context: string, service: ServiceInfo, port: ServicePort)
    ensures SplitDots(ServiceID(context, service, port))
            == [Sanitize(context), ServiceTypeOf(service), Discriminator(service.Name, port.Name)]
  {
    var c := Sanitize(context);
    var t := ServiceTypeOf(service);
    var d := Discriminator(service.Name, port.Name);
    SanitizeShape(context);
    IDCharsNoDot(c);
    ServiceTypeHasNoDot(service);
    DiscriminatorHasNoDot(service.Name, port.Name);
    SplitNoDot(c);
    SplitJoin(c, t);
    SplitJoin(c + "." + t, d);
  }

  /** generateServiceID. */
  method GenerateServiceID(context: string, service: ServiceInfo, port: ServicePort) returns (id: string)
    ensures id == ServiceID(context, service, port)
  {
    var contextPart := SanitizeIDPart(context);
    var serviceType := DetectServiceType(service);
    var discriminator := SanitizeIDPart(service.Name);
    if port.Name != "" && port.Name != "http" && port.Name != "tcp" {
      var portPart := SanitizeIDPart(port.Name);
      discriminator := discriminator + ("-" + portPart);
    }
    id := contextPart + "." + serviceType + "." + discriminator;
  }

  // ---------------------------------------------------------------------
  // GenerateConfig

  /** The generated IDs of the first n ports of one service. */
  function PortIDs(context: string, service: ServiceInfo, n: nat): (r: seq<string>)
    requires n <= |service.Ports|
    ensures |r| == n
  {
    if n == 0 then [] else PortIDs(context, service, n - 1) + [ServiceID(context, service, service.Ports[n - 1])]
  }

  /** The configs of a service's first ports given their IDs: each in the
      context, with the same local and remote port. */
  function ConfigsOf(context: string, service: ServiceInfo, ids: seq<string>): (r: seq<PortForwardConfig>)
    requires |ids| <= |service.Ports|
    ensures |r| == |ids|
    ensures forall k :: 0 <= k < |ids| ==>
      r[k] == PortForwardConfig(ids[k], context, service.Namespace, service.Name, service.Ports[k].Port, service.Ports[k].Port)
  {
    if ids == [] then []
    else
      var k := |ids| - 1;
      ConfigsOf(context, service, ids[..k])
      + [PortForwardConfig(ids[k], context, service.Namespace, service.Name, service.Ports[k].Port, service.Ports[k].Port)]
  }

  /** The configs of every port of one service. */
  function PortConfigs(context: string, service: ServiceInfo): (r: seq<PortForwardConfig>)
    ensures |r| == |service.Ports|
  {
    ConfigsOf(context, service, PortIDs(context, service, |service.Ports|))
  }

  /** The number of ports of the selected services. */
  function SelectedPorts(services: seq<DiscoveredService>): nat {
    if services == [] then 0
    else SelectedPorts(services[..|services| - 1])
         + (if services[|services| - 1].Selected then |services[|services| - 1].ServiceInfo.Ports| else 0)
  }

  /** GenerateConfig as a value: the configs of every port of every selected
      service, in order. */
  function Generated(context: string, services: seq<DiscoveredService>): (r: seq<PortForwardConfig>)
    ensures |r| == SelectedPorts(services)
    ensures forall c :: c in r ==> c.Context == context && c.PortLocal == c.PortRemote
  {
    if services == [] then []
    else
      var last := services[|services| - 1];
      var rest := Generated(context, services[..|services| - 1]);
      if last.Selected then rest + PortConfigs(context, last.ServiceInfo) else rest
  }

  /** Unselected services emit nothing. */
  lemma {:induction false} NothingSelected(context: string, services: seq<DiscoveredService>)
    requires forall i :: 0 <= i < |services| ==> !services[i].Selected
    ensures Generated(context, services) == []
  {
    if services != [] {
      NothingSelected(context, services[..|services| - 1]);
    }
  }

  /** The inner loop of GenerateConfig: one config per port. */
  method ServiceConfigs(context: string, service: ServiceInfo) returns (configs: seq<PortForwardConfig>)
    ensures configs == PortConfigs(context, service)
  {
    configs := [];
    ghost var ids: seq<string> := [];
    var j := 0;
    while j < |service.Ports|
      invariant 0 <= j <= |service.Ports|
      invariant ids == PortIDs(context, service, j) && configs == ConfigsOf(context, service, ids)
    {
      var port := service.Ports[j];
      var id := GenerateServiceID(context, service, port);
      assert (ids + [id])[..j] == ids;
      ids := ids + [id];
      configs := configs + [PortForwardConfig(id, context, service.Namespace, service.Name, port.Port, port.Port)];
      j := j + 1;
    }
  }

  /** DiscoveryResult.GenerateConfig. */
  method GenerateConfig(dr: DiscoveryResult) returns (portForwards: seq<PortForwardConfig>)
    ensures portForwards == Generated(dr.Context, dr.Services)
  {
    portForwards := [];
    var i := 0;
    while i < |dr.Services|
      invariant 0 <= i <= |dr.Services|
      invariant portForwards == Generated(dr.Context, dr.Services[..i])
    {
      assert dr.Services[..i + 1][..i] == dr.Services[..i];
      var discovered := dr.Services[i];
      if discovered.Selected {
        var configs := ServiceConfigs(dr.Context, discovered.ServiceInfo);
        portForwards := portForwards + configs;
      }
      i := i + 1;
    }
    assert dr.Services[..|dr.Services|] == dr.Services;
  }
}
