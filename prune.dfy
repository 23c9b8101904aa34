/** The prune subcommand (pkg/cmd/prune.go, repeated in main.go): find the
    local configs of the effective context whose namespace matches the
    filter and whose service was not discovered, confirm, and delete them
    one by one from the SQLite rows. */
module Prune {
  import opened Common
  import opened GoStrings
  import opened Discovery
  import opened DiscoveryK8s
  import opened Sqlite

  /** wildcardMatch, which tests "*m*" before "*s" and "s*". */
  function WildcardMatch(text: string, pattern: string): bool {
    if pattern == "*" then true
    else if pattern == "" then text == ""
    else if HasPrefix(pattern, "*") && HasSuffix(pattern, "*") then IsSubstring(pattern[1..|pattern| - 1], text)
    else if HasPrefix(pattern, "*") then HasSuffix(text, pattern[1..])
    else if HasSuffix(pattern, "*") then HasPrefix(text, pattern[..|pattern| - 1])
    else text == pattern
  }

  /** The prune twin agrees with matchesWildcardPattern on every input,
      despite testing its cases in another order. */
  lemma WildcardMatchAgrees(text: string, pattern: string)
    ensures WildcardMatch(text, pattern) == MatchesWildcardPattern(text, pattern)
  {
  }

  /** getContextDisplay. */
  function GetContextDisplay(context: string): (r: string)
    ensures r != ""
    ensures context != "" ==> r == context
    ensures context == "" ==> r == "(current context)"
  {
    if context == "" then "(current context)" else context
  }

  /** The key a service is known by: namespace/name. */
  function Key(namespace: string, name: string): string {
    namespace + "/" + name
  }

  /** The keys of the discovered services. */
  function DiscoveredKeys(services: seq<DiscoveredService>): set<string> {
    set s | s in services :: Key(s.ServiceInfo.Namespace, s.ServiceInfo.Name)
  }

  /** The loop that fills the discovered map. */
  method BuildDiscovered(services: seq<DiscoveredService>) returns (discovered: set<string>)
    ensures discovered == DiscoveredKeys(services)
  {
    discovered := {};
    var i := 0;
    while i < |services|
      invariant 0 <= i <= |services|
      invariant discovered == DiscoveredKeys(services[..i])
    {
      assert services[..i + 1] == services[..i] + [services[i]];
      discovered := discovered + {Key(services[i].ServiceInfo.Namespace, services[i].ServiceInfo.Name)};
      i := i + 1;
    }
    assert services[..|services|] == services;
  }

  /** A config is stale: same context, matching namespace, service gone. */
  predicate IsStale(cfg: PortForwardConfig, context: string, filter: string, discovered: set<string>) {
    cfg.Context == context && WildcardMatch(cfg.Namespace, filter) && Key(cfg.Namespace, cfg.Service) !in discovered
  }

  /** The stale configs, in config order. */
  function Stale(configs: seq<PortForwardConfig>, context: string, filter: string, discovered: set<string>): (r: seq<PortForwardConfig>)
    ensures |r| <= |configs|
  {
    if configs == [] then []
    else
      var rest := Stale(configs[..|configs| - 1], context, filter, discovered);
      if IsStale(configs[|configs| - 1], context, filter, discovered) then rest + [configs[|configs| - 1]] else rest
  }

  /** Stale keeps exactly the stale configs, each as often as it occurs. */
  lemma {:induction false} StaleCounts(configs: seq<PortForwardConfig>, context: string, filter: string, discovered: set<string>, c: PortForwardConfig)
    ensures multiset(Stale(configs, context, filter, discovered))[c]
         == if IsStale(c, context, filter, discovered) then multiset(configs)[c] else 0
  {
    if configs != [] {
      StaleCounts(configs[..|configs| - 1], context, filter, discovered, c);
      assert configs == configs[..|configs| - 1] + [configs[|configs| - 1]];
    }
  }

  /** Selecting from rows with distinct IDs gives rows with distinct IDs. */
  lemma {:induction false} StaleUnique(configs: seq<PortForwardConfig>, context: string, filter: string, discovered: set<string>)
    requires UniqueIDs(configs)
    ensures UniqueIDs(Stale(configs, context, filter, discovered))
    ensures forall c :: c in Stale(configs, context, filter, discovered) ==> c in configs
  {
    if configs != [] {
      var init := configs[..|configs| - 1];
      var last := configs[|configs| - 1];
      StaleUnique(init, context, filter, discovered);
      var rest := Stale(init, context, filter, discovered);
      if IsStale(last, context, filter, discovered) {
        var r := rest + [last];
        forall i, j | 0 <= i < j < |r|
          ensures r[i].ID != r[j].ID
        {
          if j == |rest| {
            assert r[i] in init;
            var k :| 0 <= k < |init| && init[k] == r[i];
            assert configs[k] == r[i];
          }
        }
      }
    }
  }

  /** The stale-entry loop. */
  method SelectStale(configs: seq<PortForwardConfig>, actualContext: string, filter: string, discovered: set<string>)
    returns (stale: seq<PortForwardConfig>)
    ensures stale == Stale(configs, actualContext, filter, discovered)
  {
    stale := [];
    var i := 0;
    while i < |configs|
      invariant 0 <= i <= |configs|
      invariant stale == Stale(configs[..i], actualContext, filter, discovered)
    {
      assert configs[..i + 1][..i] == configs[..i];
      var cfg := configs[i];
      if cfg.Context != actualContext {
      } else if !WildcardMatch(cfg.Namespace, filter) {
      } else if Key(cfg.Namespace, cfg.Service) !in discovered {
        stale := stale + [cfg];
      }
      i := i + 1;
    }
    assert configs[..|configs|] == configs;
  }

  /** The reply to "[y/N]" that lets deletion go ahead. */
  predicate Confirmed(acceptAll: bool, reply: string) {
    acceptAll || TrimSpace(ToLower(reply)) == "y" || TrimSpace(ToLower(reply)) == "yes"
  }

  /** The rows and the count after DeletePortForward on each stale ID in
      turn; a failed delete is skipped. */
  function DeleteEach(rows: seq<PortForwardConfig>, stale: seq<PortForwardConfig>): (r: (seq<PortForwardConfig>, nat))
    ensures r.1 <= |stale|
  {
    if stale == [] then (rows, 0)
    else
      var before := DeleteEach(rows, stale[..|stale| - 1]);
      var result := Delete(before.0, stale[|stale| - 1].ID);
      if result.Err? then before else (result.value, before.1 + 1)
  }

  /** When every stale row is present and their IDs are distinct, every
      delete succeeds: the count is the number of stale rows and exactly the
      rows with a stale ID are gone. */
  lemma {:induction false} DeleteEachAll(rows: seq<PortForwardConfig>, stale: seq<PortForwardConfig>)
    requires UniqueIDs(stale)
    requires forall k :: 0 <= k < |stale| ==> stale[k] in rows
    ensures DeleteEach(rows, stale).1 == |stale|
    ensures forall c :: c in DeleteEach(rows, stale).0 <==> c in rows && c.ID !in IDs(stale)
  {
    if stale != [] {
      var init := stale[..|stale| - 1];
      var last := stale[|stale| - 1];
      DeleteEachAll(rows, init);
      var rest := DeleteEach(rows, init).0;
      assert last.ID !in IDs(init);
      assert last in rest;
      var j :| 0 <= j < |rest| && rest[j] == last;
      assert IDs(rest)[j] == last.ID;
      assert IDs(stale) == IDs(init) + [last.ID];
    }
  }

  /** The deletion loop: deleted counts the successful deletes. */
  method DeleteStale(rows: seq<PortForwardConfig>, stale: seq<PortForwardConfig>) returns (remaining: seq<PortForwardConfig>, deleted: nat)
    ensures (remaining, deleted) == DeleteEach(rows, stale)
    ensures deleted <= |stale|
  {
    remaining := rows;
    deleted := 0;
    var i := 0;
    while i < |stale|
      invariant 0 <= i <= |stale|
      invariant remaining == DeleteEach(rows, stale[..i]).0 && deleted == DeleteEach(rows, stale[..i]).1
    {
      assert stale[..i + 1][..i] == stale[..i];
      var result := Delete(remaining, stale[i].ID);
      if result.Err? {
        i := i + 1;
        continue;
      }
      remaining := result.value;
      deleted := deleted + 1;
      i := i + 1;
    }
    assert stale[..|stale|] == stale;
  }

  datatype PruneOutcome =
    | NothingStale                 // "No stale services to remove."
    | Aborted(stale: nat)          // the reply was not y/yes
    | Removed(stale: nat, deleted: nat)

  /** HandlePruneCommand after discovery: select, confirm, delete. */
  method PruneConfigs(result: DiscoveryResult, filter: string, rows: seq<PortForwardConfig>, acceptAll: bool, reply: string)
    returns (outcome: PruneOutcome, remaining: seq<PortForwardConfig>)
    ensures var stale := Stale(rows, result.Context, filter, DiscoveredKeys(result.Services));
      if stale == [] then outcome == NothingStale && remaining == rows
      else if !Confirmed(acceptAll, reply) then outcome == Aborted(|stale|) && remaining == rows
      else outcome == Removed(|stale|, DeleteEach(rows, stale).1) && remaining == DeleteEach(rows, stale).0
  {
    var discovered := BuildDiscovered(result.Services);
    var stale := SelectStale(rows, result.Context, filter, discovered);
    if |stale| == 0 {
      return NothingStale, rows;
    }
    if !acceptAll {
      var resp := TrimSpace(ToLower(reply));
      if resp != "y" && resp != "yes" {
        return Aborted(|stale|), rows;
      }
    }
    var deleted;
    remaining, deleted := DeleteStale(rows, stale);
    outcome := Removed(|stale|, deleted);
  }

  /** On a table that keeps its primary key, a confirmed prune deletes every
      stale config and nothing else. */
  lemma PruneRemovesAllStale(rows: seq<PortForwardConfig>, context: string, filter: string, discovered: set<string>)
    requires UniqueIDs(rows)
    ensures var stale := Stale(rows, context, filter, discovered);
      DeleteEach(rows, stale).1 == |stale|
      && forall c :: c in DeleteEach(rows, stale).0 <==> c in rows && !IsStale(c, context, filter, discovered)
  {
    var stale := Stale(rows, context, filter, discovered);
    StaleUnique(rows, context, filter, discovered);
    assert forall k :: 0 <= k < |stale| ==> stale[k] in stale;
    DeleteEachAll(rows, stale);
    forall c | c in rows
      ensures c.ID in IDs(stale) <==> IsStale(c, context, filter, discovered)
    {
      StaleID(rows, context, filter, discovered, c);
    }
  }

  /** A row's ID is a stale ID exactly when the row is stale. */
  lemma StaleID(rows: seq<PortForwardConfig>, context: string, filter: string, discovered: set<string>, c: PortForwardConfig)
    requires UniqueIDs(rows) && c in rows
    ensures c.ID in IDs(Stale(rows, context, filter, discovered)) <==> IsStale(c, context, filter, discovered)
  {
    var stale := Stale(rows, context, filter, discovered);
    StaleUnique(rows, context, filter, discovered);
    StaleCounts(rows, context, filter, discovered, c);
    if c.ID in IDs(stale) {
      var k :| 0 <= k < |stale| && IDs(stale)[k] == c.ID;
      assert stale[k] in stale;
      var a :| 0 <= a < |rows| && rows[a] == stale[k];
      var b :| 0 <= b < |rows| && rows[b] == c;
      assert rows[a].ID == rows[b].ID;
      StaleCounts(rows, context, filter, discovered, stale[k]);
    }
  }
}
