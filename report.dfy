/** The CSV report: a fixed header row, then one row per asset in the
    order the assets were fetched, each enriched with the department,
    location and requester names the getters resolve. */
module Report {
  import opened Records
  import opened Resolution
  import opened Resolvers

  /** One CSV cell: the writer renders None as an empty field. */
  datatype Cell = Null | Num(n: int) | Str(s: string)

  type Row = seq<Cell>

  const Header: Row := [Str("display_id"), Str("asset_tag"), Str("name"),
                        Str("department"), Str("location"), Str("requester")]

  function IntCell(v: Option<int>): Cell
  {
    match v
    case None => Null
    case Some(n) => Num(n)
  }

  function TextCell(v: Option<string>): Cell
  {
    match v
    case None => Null
    case Some(s) => Str(s)
  }

  /** The lookup server, as the reply each GET would get when issued while
      the row of the asset at the given index is assembled. */
  datatype Server = Server(
    department: (nat, Key) -> NamedReply,
    location: (nat, Key) -> NamedReply,
    requester: (nat, Key) -> RequesterReply)

  /** The caller's guard `get_x(id) if id else None`, then the getter. */
  function ResolveField(s: CacheState, kind: Kind, id: Option<Key>, row: nat, server: Server): (r: (Option<string>, CacheState))
    ensures !Truthy(id) ==> r == (None, s)
  {
    if !Truthy(id) then (None, s)
    else
      var answer := match kind
        case Department => NamedAnswer(server.department(row, id.value))
        case Location => NamedAnswer(server.location(row, id.value))
        case Requester => RequesterAnswer(server.requester(row, id.value));
      ResolveIn(s, kind, id, answer)
  }

  /** The six cells of a row describe the asset: its own three fields
      first, and a None cell for each foreign key that is missing or falsy. */
  predicate RowDescribes(row: Row, a: Asset)
  {
    && |row| == 6
    && row[0] == IntCell(a.displayId)
    && row[1] == TextCell(a.assetTag)
    && row[2] == TextCell(a.name)
    && (!Truthy(a.departmentId) ==> row[3] == Null)
    && (!Truthy(a.locationId) ==> row[4] == Null)
    && (!Truthy(a.userId) ==> row[5] == Null)
  }

  /** The row of one asset and the state after its three lookups. */
  function AssetRow(a: Asset, row: nat, server: Server, s: CacheState): (r: (Row, CacheState))
    ensures |r.0| == |Header|
  {
    var dept := ResolveField(s, Department, a.departmentId, row, server);
    var loc := ResolveField(dept.1, Location, a.locationId, row, server);
    var req := ResolveField(loc.1, Requester, a.userId, row, server);
    ([IntCell(a.displayId), TextCell(a.assetTag), TextCell(a.name),
      TextCell(dept.0), TextCell(loc.0), TextCell(req.0)], req.1)
  }

  /** Each row holds the asset's own three fields first, and a None cell
      for each foreign key that is missing or falsy. */
  lemma AssetRowDescribes(a: Asset, row: nat, server: Server, s: CacheState)
    ensures RowDescribes(AssetRow(a, row, server, s).0, a)
  {
  }

  /** The data rows for `assets`, in order, and the state after all their
      lookups. */
  function Rows(assets: seq<Asset>, server: Server, s: CacheState): (r: (seq<Row>, CacheState))
    ensures |r.0| == |assets|
    decreases |assets|
  {
    if assets == [] then ([], s)
    else
      var n := |assets| - 1;
      var prefix := Rows(assets[..n], server, s);
      var last := AssetRow(assets[n], n, server, prefix.1);
      (prefix.0 + [last.0], last.1)
  }

  /** Row `i` describes asset `i`, for every index. */
  predicate AllDescribe(rows: seq<Row>, assets: seq<Asset>)
  {
    |rows| == |assets| && forall i :: 0 <= i < |assets| ==> RowDescribes(rows[i], assets[i])
  }

  lemma AllDescribeAppend(rows: seq<Row>, assets: seq<Asset>, row: Row, a: Asset)
    requires AllDescribe(rows, assets) && RowDescribes(row, a)
    ensures AllDescribe(rows + [row], assets + [a])
  {
    forall i | 0 <= i < |assets| + 1
      ensures RowDescribes((rows + [row])[i], (assets + [a])[i])
    {
      if i < |assets| {
        assert (rows + [row])[i] == rows[i] && (assets + [a])[i] == assets[i];
      }
    }
  }

  /** Row `i` of the report describes asset `i`: one row per asset, in order. */
  lemma {:induction false} RowsDescribeAssets(assets: seq<Asset>, server: Server, s: CacheState)
    ensures AllDescribe(Rows(assets, server, s).0, assets)
    decreases |assets|
  {
    if assets != [] {
      var n := |assets| - 1;
      var prefix := Rows(assets[..n], server, s);
      var last := AssetRow(assets[n], n, server, prefix.1);
      RowsStep(assets, server, s);
      RowsDescribeAssets(assets[..n], server, s);
      AssetRowDescribes(assets[n], n, server, prefix.1);
      AllDescribeAppend(prefix.0, assets[..n], last.0, assets[n]);
      assert assets[..n] + [assets[n]] == assets;
    }
  }

  /** A non-empty report is the report of all assets but the last, then
      the last asset's row. */
  lemma RowsStep(assets: seq<Asset>, server: Server, s: CacheState)
    requires assets != []
    ensures var n := |assets| - 1; var prefix := Rows(assets[..n], server, s);
      Rows(assets, server, s).0 == prefix.0 + [AssetRow(assets[n], n, server, prefix.1).0]
  {
  }

  /** `after` extends `before` with lookups of the given kinds only. */
  predicate LogGrowth(before: seq<Lookup>, after: seq<Lookup>, kinds: set<Kind>)
  {
    && |before| <= |after| && after[..|before|] == before
    && forall j :: |before| <= j < |after| ==> after[j].kind in kinds
  }

  lemma LogGrowthTrans(a: seq<Lookup>, b: seq<Lookup>, c: seq<Lookup>, k1: set<Kind>, k2: set<Kind>)
    requires LogGrowth(a, b, k1) && LogGrowth(b, c, k2)
    ensures LogGrowth(a, c, k1 + k2)
  {
    assert c[..|a|] == c[..|b|][..|a|];
    forall j | |a| <= j < |c| ensures c[j].kind in k1 + k2 {
      if j < |b| {
        assert c[j] == c[..|b|][j] == b[j];
      }
    }
  }

  /** The kinds whose id on the asset is truthy. */
  function KindsReferenced(a: Asset): set<Kind>
  {
    (if Truthy(a.departmentId) then {Department} else {})
    + (if Truthy(a.locationId) then {Location} else {})
    + (if Truthy(a.userId) then {Requester} else {})
  }

  /** A guarded getter call issues a lookup of its own kind or none, and
      none for a falsy id. */
  lemma FieldLookups(s: CacheState, kind: Kind, id: Option<Key>, row: nat, server: Server)
    ensures LogGrowth(s.log, ResolveField(s, kind, id, row, server).1.log, if Truthy(id) then {kind} else {})
  {
    if Truthy(id) {
      var answer := match kind
        case Department => NamedAnswer(server.department(row, id.value))
        case Location => NamedAnswer(server.location(row, id.value))
        case Requester => RequesterAnswer(server.requester(row, id.value));
      ResolveInFrame(s, kind, id, answer);
    }
  }

  /** One asset's row issues lookups only of the kinds whose id it carries:
      a missing or falsy foreign key triggers no lookup. */
  lemma AssetRowLookups(a: Asset, row: nat, server: Server, s: CacheState)
    ensures LogGrowth(s.log, AssetRow(a, row, server, s).1.log, KindsReferenced(a))
  {
    var s1 := ResolveField(s, Department, a.departmentId, row, server).1;
    var s2 := ResolveField(s1, Location, a.locationId, row, server).1;
    var s3 := ResolveField(s2, Requester, a.userId, row, server).1;
    FieldLookups(s, Department, a.departmentId, row, server);
    FieldLookups(s1, Location, a.locationId, row, server);
    FieldLookups(s2, Requester, a.userId, row, server);
    LogGrowthTrans(s.log, s1.log, s2.log,
      if Truthy(a.departmentId) then {Department} else {}, if Truthy(a.locationId) then {Location} else {});
    LogGrowthTrans(s.log, s2.log, s3.log,
      (if Truthy(a.departmentId) then {Department} else {}) + (if Truthy(a.locationId) then {Location} else {}),
      if Truthy(a.userId) then {Requester} else {});
    assert AssetRow(a, row, server, s).1 == s3;
  }

  /** Assembling the rows keeps the caches coherent with the log. */
  lemma {:induction false} RowsKeepCoherent(assets: seq<Asset>, server: Server, s: CacheState)
    requires Coherent(s)
    ensures Coherent(Rows(assets, server, s).1)
    decreases |assets|
  {
    if assets != [] {
      var n := |assets| - 1;
      RowsKeepCoherent(assets[..n], server, s);
      var s1 := Rows(assets[..n], server, s).1;
      var a := assets[n];
      var t1 := ResolveField(s1, Department, a.departmentId, n, server).1;
      var t2 := ResolveField(t1, Location, a.locationId, n, server).1;
      FieldKeepsCoherent(s1, Department, a.departmentId, n, server);
      FieldKeepsCoherent(t1, Location, a.locationId, n, server);
      FieldKeepsCoherent(t2, Requester, a.userId, n, server);
    }
  }

  lemma FieldKeepsCoherent(s: CacheState, kind: Kind, id: Option<Key>, row: nat, server: Server)
    requires Coherent(s)
    ensures Coherent(ResolveField(s, kind, id, row, server).1)
  {
    if Truthy(id) {
      var answer := match kind
        case Department => NamedAnswer(server.department(row, id.value))
        case Location => NamedAnswer(server.location(row, id.value))
        case Requester => RequesterAnswer(server.requester(row, id.value));
      ResolveInKeepsCoherent(s, kind, id, answer);
    }
  }

  /** Over a whole run starting from empty caches, each id of each kind is
      looked up successfully at most once, however many assets refer to it. */
  lemma EachIdFetchedOnce(assets: seq<Asset>, server: Server, i: nat, j: nat)
    requires var log := Rows(assets, server, Empty).1.log;
      i < j < |log| && log[i].status == 200 && log[j].status == 200 && log[i].kind == log[j].kind
    ensures var log := Rows(assets, server, Empty).1.log; log[i].key != log[j].key
  {
    RowsKeepCoherent(assets, server, Empty);
  }

  /** The body of the report loop for the asset at index `i`: the getters
      are called, each guarded by its id, and the row is assembled. */
  method AssembleRow(asset: Asset, i: nat, server: Server, resolver: ReferenceResolver) returns (row: Row)
    requires resolver.Valid()
    modifies resolver
    ensures resolver.Valid()
    ensures (row, resolver.State()) == AssetRow(asset, i, server, old(resolver.State()))
  {
    ghost var before := resolver.State();
    var displayId := asset.displayId;
    var assetTag := asset.assetTag;
    var assetName := asset.name;
    var deptName: Option<string> := None;
    if Truthy(asset.departmentId) {
      deptName := resolver.DepartmentName(asset.departmentId, server.department(i, asset.departmentId.value));
    }
    ghost var afterDept := resolver.State();
    assert (deptName, afterDept) == ResolveField(before, Department, asset.departmentId, i, server);
    var locName: Option<string> := None;
    if Truthy(asset.locationId) {
      locName := resolver.LocationName(asset.locationId, server.location(i, asset.locationId.value));
    }
    ghost var afterLoc := resolver.State();
    assert (locName, afterLoc) == ResolveField(afterDept, Location, asset.locationId, i, server);
    var requesterName: Option<string> := None;
    if Truthy(asset.userId) {
      requesterName := resolver.RequesterName(asset.userId, server.requester(i, asset.userId.value));
    }
    assert (requesterName, resolver.State()) == ResolveField(afterLoc, Requester, asset.userId, i, server);
    row := [IntCell(displayId), TextCell(assetTag), TextCell(assetName),
            TextCell(deptName), TextCell(locName), TextCell(requesterName)];
  }

  /** The report loop: the header, then one row per asset, in order. */
  method WriteRows(assets: seq<Asset>, server: Server, resolver: ReferenceResolver) returns (table: seq<Row>)
    requires resolver.Valid()
    modifies resolver
    ensures resolver.Valid()
    ensures table == [Header] + Rows(assets, server, old(resolver.State())).0
    ensures resolver.State() == Rows(assets, server, old(resolver.State())).1
  {
    ghost var start := resolver.State();
    table := [Header];
    var i := 0;
    while i < |assets|
      invariant 0 <= i <= |assets|
      invariant resolver.Valid()
      invariant table == [Header] + Rows(assets[..i], server, start).0
      invariant resolver.State() == Rows(assets[..i], server, start).1
    {
      var row := AssembleRow(assets[i], i, server, resolver);
      table := table + [row];
      assert assets[..i + 1][..i] == assets[..i];
      i := i + 1;
    }
    assert assets[..i] == assets;
  }
}
