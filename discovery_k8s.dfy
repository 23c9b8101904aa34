/** Namespace matching and the assembly of a discovery result
    (pkg/discovery/k8s.go). What kubectl prints is passed in as values: the
    current context, the namespace names and the services it listed. */
module DiscoveryK8s {
  import opened Common
  import opened GoStrings
  import opened Discovery

  datatype DiscoveryError =
    | ContextFailed(reason: string)          // kubectl config current-context failed
    | NoCurrentContext
    | NamespacesFailed(reason: string)       // kubectl get namespaces failed
    | NoNamespaces
    | NoMatchingNamespaces(filter: string)
    | ServicesFailed(reason: string)         // kubectl get services failed or printed bad JSON

  // ---------------------------------------------------------------------
  // matchesWildcardPattern

  /** matchesWildcardPattern: '*' may stand at the start, the end or both. */
  function MatchesWildcardPattern(text: string, pattern: string): bool {
    if pattern == "*" then true
    else if pattern == "" then text == ""
    else if HasSuffix(pattern, "*") && !HasPrefix(pattern, "*") then HasPrefix(text, pattern[..|pattern| - 1])
    else if HasPrefix(pattern, "*") && !HasSuffix(pattern, "*") then HasSuffix(text, pattern[1..])
    else if HasPrefix(pattern, "*") && HasSuffix(pattern, "*") then IsSubstring(pattern[1..|pattern| - 1], text)
    else text == pattern
  }

  /** "*" matches everything and "" matches only "". */
  lemma WildcardTrivial(text: string)
    ensures MatchesWildcardPattern(text, "*")
    ensures MatchesWildcardPattern(text, "") <==> text == ""
  {
  }

  /** "p*" is a prefix test. */
  lemma WildcardPrefix(text: string, p: string)
    requires p == [] || p[0] != '*'
    ensures MatchesWildcardPattern(text, p + "*") <==> HasPrefix(text, p)
  {
    var pattern := p + "*";
    assert pattern[..|pattern| - 1] == p;
  }

  /** "*s" is a suffix test. */
  lemma WildcardSuffix(text: string, s: string)
    requires s == [] || s[|s| - 1] != '*'
    ensures MatchesWildcardPattern(text, "*" + s) <==> HasSuffix(text, s)
  {
    var pattern := "*" + s;
    assert pattern[1..] == s;
  }

  /** "*m*" is a substring test. */
  lemma WildcardMiddle(text: string, m: string)
    ensures MatchesWildcardPattern(text, "*" + m + "*") <==> IsSubstring(m, text)
  {
    var pattern := "*" + m + "*";
    assert pattern[1..|pattern| - 1] == m;
    assert m == [] ==> OccursAt(m, text, 0);
  }

  /** A pattern without a '*' at either end is matched literally. */
  lemma WildcardExact(text: string, p: string)
    requires p != [] && p[0] != '*' && p[|p| - 1] != '*'
    ensures MatchesWildcardPattern(text, p) <==> text == p
  {
  }

  // ---------------------------------------------------------------------
  // getCurrentContext, discoverNamespaces

  /** getCurrentContext after kubectl ran: the trimmed output, which must
      not be empty. */
  function CurrentContext(output: Result<string, string>): (r: Result<string, DiscoveryError>)
    ensures r.Ok? ==> r.value != "" && output.Ok? && r.value == TrimSpace(output.value)
    ensures output.Err? ==> r == Err(ContextFailed(output.error))
  {
    match output
    case Err(e) => Err(ContextFailed(e))
    case Ok(s) => if TrimSpace(s) == "" then Err(NoCurrentContext) else Ok(TrimSpace(s))
  }

  /** The names that match the filter, in input order. */
  function Matching(names: seq<string>, filter: string): (r: seq<string>)
    ensures |r| <= |names|
  {
    if names == [] then []
    else if MatchesWildcardPattern(names[|names| - 1], filter) then Matching(names[..|names| - 1], filter) + [names[|names| - 1]]
    else Matching(names[..|names| - 1], filter)
  }

  /** Matching keeps every matching name with its multiplicity and no other. */
  lemma {:induction false} MatchingCounts(names: seq<string>, filter: string, x: string)
    ensures multiset(Matching(names, filter))[x] == if MatchesWildcardPattern(x, filter) then multiset(names)[x] else 0
  {
    if names != [] {
      MatchingCounts(names[..|names| - 1], filter, x);
      assert names == names[..|names| - 1] + [names[|names| - 1]];
    }
  }

  /** discoverNamespaces after kubectl listed the names (already split into
      fields): an error when there are none, or none match. */
  method DiscoverNamespaces(listed: Result<seq<string>, string>, filter: string) returns (r: Result<seq<string>, DiscoveryError>)
    ensures listed.Err? ==> r == Err(NamespacesFailed(listed.error))
    ensures listed.Ok? && listed.value == [] ==> r == Err(NoNamespaces)
    ensures listed.Ok? && listed.value != [] ==>
      if Matching(listed.value, filter) == [] then r == Err(NoMatchingNamespaces(filter))
      else r == Ok(Matching(listed.value, filter))
  {
    if listed.Err? {
      return Err(NamespacesFailed(listed.error));
    }
    var allNamespaces := listed.value;
    if |allNamespaces| == 0 {
      return Err(NoNamespaces);
    }
    var matchingNamespaces: seq<string> := [];
    var i := 0;
    while i < |allNamespaces|
      invariant 0 <= i <= |allNamespaces|
      invariant matchingNamespaces == Matching(allNamespaces[..i], filter)
    {
      assert allNamespaces[..i + 1][..i] == allNamespaces[..i];
      if MatchesWildcardPattern(allNamespaces[i], filter) {
        matchingNamespaces := matchingNamespaces + [allNamespaces[i]];
      }
      i := i + 1;
    }
    assert allNamespaces[..|allNamespaces|] == allNamespaces;
    if |matchingNamespaces| == 0 {
      return Err(NoMatchingNamespaces(filter));
    }
    return Ok(matchingNamespaces);
  }

  // ---------------------------------------------------------------------
  // getAllServicesInContext: the port-less skip

  /** The services that have at least one port, in order. */
  function WithPorts(items: seq<ServiceInfo>): (r: seq<ServiceInfo>)
    ensures |r| <= |items|
    ensures forall s :: s in r ==> s in items && s.Ports != []
  {
    if items == [] then []
    else if |items[|items| - 1].Ports| == 0 then WithPorts(items[..|items| - 1])
    else WithPorts(items[..|items| - 1]) + [items[|items| - 1]]
  }

  /** Every service with ports is kept, with its multiplicity. */
  lemma {:induction false} WithPortsCounts(items: seq<ServiceInfo>, s: ServiceInfo)
    ensures multiset(WithPorts(items))[s] == if s.Ports != [] then multiset(items)[s] else 0
  {
    if items != [] {
      var init, last := items[..|items| - 1], items[|items| - 1];
      WithPortsCounts(init, s);
      assert items == init + [last];
      assert multiset(items)[s] == multiset(init)[s] + (if last == s then 1 else 0);
      if last.Ports != [] {
        assert WithPorts(items) == WithPorts(init) + [last];
      } else {
        assert WithPorts(items) == WithPorts(init);
      }
    }
  }

  /** The conversion loop: services without ports are skipped. */
  method ConvertServices(items: seq<ServiceInfo>) returns (services: seq<ServiceInfo>)
    ensures services == WithPorts(items)
  {
    services := [];
    var i := 0;
    while i < |items|
      invariant 0 <= i <= |items|
      invariant services == WithPorts(items[..i])
    {
      assert items[..i + 1][..i] == items[..i];
      if |items[i].Ports| != 0 {
        services := services + [items[i]];
      }
      i := i + 1;
    }
    assert items[..|items|] == items;
  }

  // ---------------------------------------------------------------------
  // DiscoverServices

  /** The services whose namespace is one of the given ones, in order. */
  function InNamespaces(services: seq<ServiceInfo>, namespaces: set<string>): (r: seq<ServiceInfo>)
    ensures |r| <= |services|
    ensures forall s :: s in r ==> s in services && s.Namespace in namespaces
  {
    if services == [] then []
    else if services[|services| - 1].Namespace in namespaces then InNamespaces(services[..|services| - 1], namespaces) + [services[|services| - 1]]
    else InNamespaces(services[..|services| - 1], namespaces)
  }

  /** Every service of a matched namespace is kept, with its multiplicity. */
  lemma {:induction false} InNamespacesCounts(services: seq<ServiceInfo>, namespaces: set<string>, s: ServiceInfo)
    ensures multiset(InNamespaces(services, namespaces))[s] == if s.Namespace in namespaces then multiset(services)[s] else 0
  {
    if services != [] {
      InNamespacesCounts(services[..|services| - 1], namespaces, s);
      assert services == services[..|services| - 1] + [services[|services| - 1]];
    }
  }

  /** The generated ID of each service, from its first port. (DiscoverServices
      falls back to a port named "default" for a service without ports, but
      no such service reaches it: they are skipped when the listing is
      converted.) */
  function FirstPortIDs(context: string, services: seq<ServiceInfo>): (r: seq<string>)
    requires forall k :: 0 <= k < |services| ==> services[k].Ports != []
    ensures |r| == |services|
  {
    if services == [] then []
    else
      var last := services[|services| - 1];
      FirstPortIDs(context, services[..|services| - 1]) + [ServiceID(context, last, last.Ports[0])]
  }

  /** The discovered entries: each service, not selected, with its ID. */
  function DiscoveredOf(services: seq<ServiceInfo>, ids: seq<string>): (r: seq<DiscoveredService>)
    requires |ids| == |services|
    ensures |r| == |services|
    ensures forall k :: 0 <= k < |r| ==> r[k].ServiceInfo == services[k] && !r[k].Selected && r[k].GeneratedID == ids[k]
  {
    if services == [] then []
    else
      var n := |services| - 1;
      DiscoveredOf(services[..n], ids[..n]) + [DiscoveredService(services[n], false, ids[n])]
  }

  /** The result DiscoverServices returns for the given kubectl outputs. */
  function Discovered(context: string, filter: string, namespaces: seq<string>, listed: seq<ServiceInfo>): (r: DiscoveryResult)
    ensures r.TotalCount == |r.Services| && r.SelectedCount == 0
    ensures forall i :: 0 <= i < |r.Services| ==> !r.Services[i].Selected
    ensures r.Context == context && r.NamespaceFilter == filter
  {
    var services := InNamespaces(WithPorts(listed), set n | n in namespaces);
    assert forall k :: 0 <= k < |services| ==> services[k] in services;
    DiscoveryResult(DiscoveredOf(services, FirstPortIDs(context, services)), 0, |services|, context, filter)
  }

  /** The namespacesSet loop of DiscoverServices. */
  method NamespaceSet(namespaces: seq<string>) returns (namespacesSet: set<string>)
    ensures namespacesSet == set n | n in namespaces
  {
    namespacesSet := {};
    var i := 0;
    while i < |namespaces|
      invariant 0 <= i <= |namespaces|
      invariant namespacesSet == set n | n in namespaces[..i]
    {
      assert namespaces[..i + 1] == namespaces[..i] + [namespaces[i]];
      namespacesSet := namespacesSet + {namespaces[i]};
      i := i + 1;
    }
    assert namespaces[..|namespaces|] == namespaces;
  }

  /** The namespace filter loop of DiscoverServices. */
  method FilterByNamespace(allServices: seq<ServiceInfo>, namespacesSet: set<string>) returns (filteredServices: seq<ServiceInfo>)
    ensures filteredServices == InNamespaces(allServices, namespacesSet)
  {
    filteredServices := [];
    var j := 0;
    while j < |allServices|
      invariant 0 <= j <= |allServices|
      invariant filteredServices == InNamespaces(allServices[..j], namespacesSet)
    {
      assert allServices[..j + 1][..j] == allServices[..j];
      if allServices[j].Namespace in namespacesSet {
        filteredServices := filteredServices + [allServices[j]];
      }
      j := j + 1;
    }
    assert allServices[..|allServices|] == allServices;
  }

  /** The loop that builds the discovered entries. */
  method DiscoverEach(context: string, filteredServices: seq<ServiceInfo>) returns (discoveredServices: seq<DiscoveredService>)
    requires forall k :: 0 <= k < |filteredServices| ==> filteredServices[k].Ports != []
    ensures discoveredServices == DiscoveredOf(filteredServices, FirstPortIDs(context, filteredServices))
  {
    discoveredServices := [];
    ghost var ids: seq<string> := [];
    var k := 0;
    while k < |filteredServices|
      invariant 0 <= k <= |filteredServices|
      invariant ids == FirstPortIDs(context, filteredServices[..k])
      invariant discoveredServices == DiscoveredOf(filteredServices[..k], ids)
    {
      var service := filteredServices[k];
      // The fallback port "default" of the source is never needed here.
      var generatedID := GenerateServiceID(context, service, service.Ports[0]);
      assert filteredServices[..k + 1][..k] == filteredServices[..k];
      discoveredServices := discoveredServices + [DiscoveredService(service, false, generatedID)];
      ids := ids + [generatedID];
      assert ids[..k] == ids[..|ids| - 1];
      k := k + 1;
    }
    assert filteredServices[..|filteredServices|] == filteredServices;
  }

  /** DiscoverServices, with kubectl's answers as parameters: the context
      (used when none is given), the namespace names and the services. */
  method DiscoverServices(opts: Options, currentContext: Result<string, string>,
                          listedNamespaces: Result<seq<string>, string>,
                          listedServices: Result<seq<ServiceInfo>, string>)
    returns (r: Result<DiscoveryResult, DiscoveryError>)
    ensures opts.Context == "" && CurrentContext(currentContext).Err? ==> r == Err(CurrentContext(currentContext).error)
    ensures r.Ok? ==>
      var context := if opts.Context != "" then opts.Context else CurrentContext(currentContext).value;
      listedNamespaces.Ok? && listedServices.Ok?
      && Matching(listedNamespaces.value, opts.NamespaceFilter) != []
      && r.value == Discovered(context, opts.NamespaceFilter, Matching(listedNamespaces.value, opts.NamespaceFilter), listedServices.value)
    ensures r.Err? && (opts.Context != "" || CurrentContext(currentContext).Ok?) ==>
      listedNamespaces.Err? || listedServices.Err? || Matching(listedNamespaces.value, opts.NamespaceFilter) == []
    // past the context, each failing step's own error, in the order the steps run
    ensures opts.Context != "" || CurrentContext(currentContext).Ok? ==>
      (listedNamespaces.Err? ==> r == Err(NamespacesFailed(listedNamespaces.error)))
      && (listedNamespaces.Ok? && listedNamespaces.value == [] ==> r == Err(NoNamespaces))
      && (listedNamespaces.Ok? && listedNamespaces.value != [] && Matching(listedNamespaces.value, opts.NamespaceFilter) == [] ==>
            r == Err(NoMatchingNamespaces(opts.NamespaceFilter)))
      && (listedNamespaces.Ok? && Matching(listedNamespaces.value, opts.NamespaceFilter) != [] && listedServices.Err? ==>
            r == Err(ServicesFailed(listedServices.error)))
  {
    var context := opts.Context;
    if context == "" {
      var current := CurrentContext(currentContext);
      if current.Err? {
        return Err(current.error);
      }
      context := current.value;
    }
    var namespaces := DiscoverNamespaces(listedNamespaces, opts.NamespaceFilter);
    if namespaces.Err? {
      return Err(namespaces.error);
    }
    if listedServices.Err? {
      return Err(ServicesFailed(listedServices.error));
    }
    var allServices := ConvertServices(listedServices.value);
    var namespacesSet := NamespaceSet(namespaces.value);
    var filteredServices := FilterByNamespace(allServices, namespacesSet);
    assert forall k :: 0 <= k < |filteredServices| ==> filteredServices[k] in filteredServices;
    if |filteredServices| == 0 {
      return Ok(DiscoveryResult([], 0, 0, context, opts.NamespaceFilter));
    }
    var discoveredServices := DiscoverEach(context, filteredServices);
    return Ok(DiscoveryResult(discoveredServices, 0, |discoveredServices|, context, opts.NamespaceFilter));
  }
}
