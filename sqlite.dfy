/** The port-forward rows of the SQLite store (pkg/config/sqlite_store.go),
    as the value GetAll returns: rows kept in ORDER BY context, namespace,
    service, with the primary key on the ID. Only the three operations the
    discovery and prune handlers rely on are modelled. */
module Sqlite {
  import opened Common
  import opened GoStrings

  datatype SqlError =
    | DuplicateID(id: string)   // INSERT violates the primary key
    | NotFound(id: string)      // DELETE affected no row

  /** The ORDER BY context, namespace, service comparison. */
  predicate KeyLess(a: PortForwardConfig, b: PortForwardConfig) {
    LexLess(a.Context, b.Context)
    || (a.Context == b.Context
        && (LexLess(a.Namespace, b.Namespace) || (a.Namespace == b.Namespace && LexLess(a.Service, b.Service))))
  }

  lemma KeyLessTransitive(a: PortForwardConfig, b: PortForwardConfig, c: PortForwardConfig)
    requires KeyLess(a, b) && KeyLess(b, c)
    ensures KeyLess(a, c)
  {
    if LexLess(a.Context, b.Context) && LexLess(b.Context, c.Context) {
      LexLessTransitive(a.Context, b.Context, c.Context);
    } else if a.Context == b.Context && b.Context == c.Context {
      if LexLess(a.Namespace, b.Namespace) && LexLess(b.Namespace, c.Namespace) {
        LexLessTransitive(a.Namespace, b.Namespace, c.Namespace);
      } else if a.Namespace == b.Namespace && b.Namespace == c.Namespace {
        LexLessTransitive(a.Service, b.Service, c.Service);
      }
    }
  }

  lemma KeyLessIrreflexive(a: PortForwardConfig)
    ensures !KeyLess(a, a)
  {
    LexLessIrreflexive(a.Context);
    LexLessIrreflexive(a.Namespace);
    LexLessIrreflexive(a.Service);
  }

  /** The rows are in GetAll order. */
  predicate Ordered(rows: seq<PortForwardConfig>) {
    forall i, j :: 0 <= i < j < |rows| ==> !KeyLess(rows[j], rows[i])
  }

  /** The primary key holds. */
  predicate UniqueIDs(rows: seq<PortForwardConfig>) {
    forall i, j :: 0 <= i < j < |rows| ==> rows[i].ID != rows[j].ID
  }

  /** Where a new row lands: before the first row it sorts strictly before;
      rows with an equal key keep insertion order. */
  function InsertPosFrom(rows: seq<PortForwardConfig>, cfg: PortForwardConfig, i: nat): (r: nat)
    requires i <= |rows|
    ensures i <= r <= |rows|
    ensures forall k :: i <= k < r ==> !KeyLess(cfg, rows[k])
    ensures r < |rows| ==> KeyLess(cfg, rows[r])
    decreases |rows| - i
  {
    if i == |rows| then i
    else if KeyLess(cfg, rows[i]) then i
    else InsertPosFrom(rows, cfg, i + 1)
  }

  /** Add: INSERT INTO port_forwards. */
  function Add(rows: seq<PortForwardConfig>, cfg: PortForwardConfig): (r: Result<seq<PortForwardConfig>, SqlError>)
    ensures r.Err? <==> cfg.ID in IDs(rows)
    ensures r.Err? ==> r.error == DuplicateID(cfg.ID)
    ensures r.Ok? ==> multiset(r.value) == multiset(rows) + multiset{cfg}
  {
    if cfg.ID in IDs(rows) then Err(DuplicateID(cfg.ID))
    else
      var p := InsertPosFrom(rows, cfg, 0);
      assert rows == rows[..p] + rows[p..];
      Ok(rows[..p] + [cfg] + rows[p..])
  }

  /** A row sorted in front of rows[p] sorts in front of every later row. */
  lemma BeforeLater(rows: seq<PortForwardConfig>, cfg: PortForwardConfig, p: int, k: int)
    requires Ordered(rows) && 0 <= p <= k < |rows| && KeyLess(cfg, rows[p])
    ensures !KeyLess(rows[k], cfg)
  {
    if KeyLess(rows[k], cfg) {
      KeyLessTransitive(rows[k], cfg, rows[p]);
      if k == p {
        KeyLessIrreflexive(rows[p]);
      }
      assert false;
    }
  }

  /** Inserting at the position Add picks keeps GetAll order. */
  lemma InsertOrdered(rows: seq<PortForwardConfig>, cfg: PortForwardConfig, p: int)
    requires Ordered(rows) && 0 <= p <= |rows|
    requires forall k :: 0 <= k < p ==> !KeyLess(cfg, rows[k])
    requires p < |rows| ==> KeyLess(cfg, rows[p])
    ensures Ordered(rows[..p] + [cfg] + rows[p..])
  {
    var r := rows[..p] + [cfg] + rows[p..];
    forall i, j | 0 <= i < j < |r|
      ensures !KeyLess(r[j], r[i])
    {
      if j == p {
        assert r[i] == rows[i];
      } else if i == p {
        assert r[j] == rows[j - 1];
        BeforeLater(rows, cfg, p, j - 1);
      } else {
        var i' := if i < p then i else i - 1;
        var j' := if j < p then j else j - 1;
        assert r[i] == rows[i'] && r[j] == rows[j'] && i' < j';
      }
    }
  }

  /** Inserting a row with a new ID keeps the primary key. */
  lemma InsertUnique(rows: seq<PortForwardConfig>, cfg: PortForwardConfig, p: int)
    requires UniqueIDs(rows) && 0 <= p <= |rows|
    requires forall k :: 0 <= k < |rows| ==> rows[k].ID != cfg.ID
    ensures UniqueIDs(rows[..p] + [cfg] + rows[p..])
  {
    var r := rows[..p] + [cfg] + rows[p..];
    forall i, j | 0 <= i < j < |r|
      ensures r[i].ID != r[j].ID
    {
      if i == p {
        assert r[j] == rows[j - 1];
      } else if j == p {
        assert r[i] == rows[i];
      } else {
        var i' := if i < p then i else i - 1;
        var j' := if j < p then j else j - 1;
        assert r[i] == rows[i'] && r[j] == rows[j'];
      }
    }
  }

  /** Adding keeps the rows in GetAll order and the primary key. */
  lemma AddKeepsOrder(rows: seq<PortForwardConfig>, cfg: PortForwardConfig)
    requires Ordered(rows) && UniqueIDs(rows)
    requires Add(rows, cfg).Ok?
    ensures Ordered(Add(rows, cfg).value) && UniqueIDs(Add(rows, cfg).value)
  {
    var p := InsertPosFrom(rows, cfg, 0);
    InsertOrdered(rows, cfg, p);
    forall k | 0 <= k < |rows|
      ensures rows[k].ID != cfg.ID
    {
      assert IDs(rows)[k] == rows[k].ID;
    }
    InsertUnique(rows, cfg, p);
  }

  /** The rows whose ID differs from id, in order. */
  function OtherRows(rows: seq<PortForwardConfig>, id: string): (r: seq<PortForwardConfig>)
    ensures |r| <= |rows|
    ensures forall c :: c in r <==> c in rows && c.ID != id
  {
    if rows == [] then []
    else if rows[|rows| - 1].ID == id then OtherRows(rows[..|rows| - 1], id)
    else OtherRows(rows[..|rows| - 1], id) + [rows[|rows| - 1]]
  }

  /** Removing rows keeps GetAll order and the primary key. */
  lemma {:induction false} OtherRowsKeepsOrder(rows: seq<PortForwardConfig>, id: string)
    requires Ordered(rows) && UniqueIDs(rows)
    ensures Ordered(OtherRows(rows, id)) && UniqueIDs(OtherRows(rows, id))
  {
    if rows != [] {
      var init := rows[..|rows| - 1];
      var last := rows[|rows| - 1];
      OtherRowsKeepsOrder(init, id);
      var rest := OtherRows(init, id);
      if last.ID != id {
        var r := rest + [last];
        forall i, j | 0 <= i < j < |r|
          ensures !KeyLess(r[j], r[i]) && r[i].ID != r[j].ID
        {
          if j == |rest| {
            assert r[i] in init;
            var k :| 0 <= k < |init| && init[k] == r[i];
            assert rows[k] == r[i];
          }
        }
      }
    }
  }

  /** DeletePortForward: an error when no row has the ID. */
  function Delete(rows: seq<PortForwardConfig>, id: string): (r: Result<seq<PortForwardConfig>, SqlError>)
    ensures r.Err? <==> id !in IDs(rows)
    ensures r.Err? ==> r.error == NotFound(id)
    ensures r.Ok? ==> |r.value| < |rows| && forall c :: c in r.value <==> c in rows && c.ID != id
  {
    if id !in IDs(rows) then Err(NotFound(id))
    else
      var k :| 0 <= k < |rows| && IDs(rows)[k] == id;
      assert rows[k] !in OtherRows(rows, id);
      OtherRowsShorter(rows, id, k);
      Ok(OtherRows(rows, id))
  }

  lemma {:induction false} OtherRowsShorter(rows: seq<PortForwardConfig>, id: string, k: int)
    requires 0 <= k < |rows| && rows[k].ID == id
    ensures |OtherRows(rows, id)| < |rows|
  {
    var n := |rows| - 1;
    if k < n {
      OtherRowsShorter(rows[..n], id, k);
    }
  }

  /** Get(index) on the rows as they are now. */
  function Get(rows: seq<PortForwardConfig>, index: int): (r: Option<PortForwardConfig>)
    ensures r.Some? <==> 0 <= index < |rows|
    ensures r.Some? ==> r.value == rows[index]
  {
    if 0 <= index < |rows| then Some(rows[index]) else None
  }
}
