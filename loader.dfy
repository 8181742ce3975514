/**
 * The leaf of every query function: one dataset, one registration and, where
 * the function reads per-target tables, one target and at most one cfgid. A
 * leaf reads its CSV file (a missing one gives an empty table) and puts the
 * identity columns in front of the file's own columns.
 */
module Loader {
  import opened Wrappers
  import opened StringUtil
  import opened Tables
  import opened Selectors
  import opened Storage
  import opened Naming
  import opened Identity

  /** The registration a leaf stands for. */
  datatype LeafId = LeafId(regid: string, toolkit: string, command: Option<string>, version: Option<string>)

  /** A query whose selectors are all scalars and which passed the argument checks. */
  predicate IsLeaf(q: Query)
  {
    q.dataset.One? && q.dataset.s != "" &&
    !IsIterable(q.regid) && !IsIterable(q.toolkit) && !IsIterable(q.command) && !IsIterable(q.version) &&
    (Truthy(q.regid) || Truthy(q.toolkit))
  }

  /**
   * A truthy regid is decoded into toolkit, command and version, which then
   * replace the arguments; otherwise the regid is encoded from the arguments.
   */
  function LeafIdOf(q: Query): (r: LeafId)
    requires IsLeaf(q)
    ensures Truthy(q.regid) ==>
      r.regid == q.regid.s && SplitRegid(q.regid.s) == RegId(r.toolkit, r.command, r.version)
    ensures !Truthy(q.regid) ==>
      r.toolkit == q.toolkit.s && r.command == OptionOf(q.command) && r.version == OptionOf(q.version) &&
      r.regid == GetRegid(r.toolkit, r.command, r.version)
  {
    if Truthy(q.regid) then
      var id := SplitRegid(q.regid.s);
      LeafId(q.regid.s, id.toolkit, id.command, id.version)
    else
      var command, version := OptionOf(q.command), OptionOf(q.version);
      LeafId(GetRegid(q.toolkit.s, command, version), q.toolkit.s, command, version)
  }

  /** A decoded regid names the same registration as its parts would. */
  lemma LeafIdAgrees(q: Query, t: string, c: Option<string>, v: Option<string>)
    requires IsLeaf(q) && q.regid == One(GetRegid(t, c, v)) && t != ""
    requires '-' !in t
    requires c != Some("") && v != Some("")
    requires v.Some? ==> IsVersion(v.value) && NoNewline(t)
    requires v.Some? && c.Some? ==> NoNewline(c.value)
    requires v.None? && c.Some? ==> !EndsInVersion(c.value)
    ensures LeafIdOf(q) == LeafId(GetRegid(t, c, v), t, c, v)
  {
    SplitGetRegid(t, c, v);
  }

  function CellOf(s: Option<string>): Cell
  {
    if s.Some? then Str(s.value) else Null
  }

  const IdentityColumns: seq<string> := ["dataset", "regid", "toolkit", "command", "version"]

  /** None of the identity columns is in `t` yet. */
  predicate NoIdentityColumns(t: Table)
  {
    "dataset" !in t.columns && "regid" !in t.columns && "toolkit" !in t.columns &&
    "command" !in t.columns && "version" !in t.columns
  }

  // ---------------------------------------------------------------------------
  // Identity columns

  /**
   * The five `df.insert(k, ...)` calls of `get_params`, k = 0..4: the identity
   * columns in front, the same values in every row; ValueError when the table
   * already has one of them.
   */
  function PrefixParams(t: Table, dataset: string, id: LeafId): (r: Result<Table>)
    ensures r.Ok? <==> NoIdentityColumns(t)
    ensures r.Ok? ==> r.value.columns == IdentityColumns + t.columns && |r.value.rows| == |t.rows|
  {
    var t1 :- Insert(t, 0, "dataset", Str(dataset));
    var t2 :- Insert(t1, 1, "regid", Str(id.regid));
    var t3 :- Insert(t2, 2, "toolkit", Str(id.toolkit));
    var t4 :- Insert(t3, 3, "command", CellOf(id.command));
    var t5 :- Insert(t4, 4, "version", CellOf(id.version));
    assert t5.columns == IdentityColumns + t.columns;
    Ok(t5)
  }

  /** Each row of PrefixParams is the parameter row with the five identity cells set. */
  lemma PrefixParamsRows(t: Table, dataset: string, id: LeafId, i: nat)
    requires PrefixParams(t, dataset, id).Ok? && i < |t.rows|
    ensures PrefixParams(t, dataset, id).value.rows[i] ==
      t.rows[i]["dataset" := Str(dataset)]["regid" := Str(id.regid)]
        ["toolkit" := Str(id.toolkit)]["command" := CellOf(id.command)]["version" := CellOf(id.version)]
  {
    var t1 := Insert(t, 0, "dataset", Str(dataset)).value;
    var t2 := Insert(t1, 1, "regid", Str(id.regid)).value;
    var t3 := Insert(t2, 2, "toolkit", Str(id.toolkit)).value;
    var t4 := Insert(t3, 3, "command", CellOf(id.command)).value;
    assert PrefixParams(t, dataset, id) == Insert(t4, 4, "version", CellOf(id.version));
  }

  /** The columns a per-target fragment starts with: `cfgid` only when it is truthy. */
  function FragmentColumns(cfgid: Option<Cfgid>): seq<string>
  {
    IdentityColumns + (if cfgid.Some? && CfgidTruthy(cfgid.value) then ["cfgid"] else []) + ["tgtid"]
  }

  /** The front five `df.insert(0, ...)` calls, version first, so that dataset ends up first. */
  function FrontIdentity(t: Table, dataset: string, id: LeafId): (r: Result<Table>)
    ensures r.Ok? <==> NoIdentityColumns(t)
    ensures r.Ok? ==> r.value.columns == IdentityColumns + t.columns && |r.value.rows| == |t.rows|
    ensures r.Ok? ==> forall i :: 0 <= i < |t.rows| ==>
      r.value.rows[i] == t.rows[i]["version" := CellOf(id.version)]["command" := CellOf(id.command)]
        ["toolkit" := Str(id.toolkit)]["regid" := Str(id.regid)]["dataset" := Str(dataset)]
  {
    var t1 :- Insert(t, 0, "version", CellOf(id.version));
    var t2 :- Insert(t1, 0, "command", CellOf(id.command));
    var t3 :- Insert(t2, 0, "toolkit", Str(id.toolkit));
    var t4 :- Insert(t3, 0, "regid", Str(id.regid));
    var t5 :- Insert(t4, 0, "dataset", Str(dataset));
    assert t5.columns == IdentityColumns + t.columns;
    Ok(t5)
  }

  /** The first `df.insert(0, ...)` calls: tgtid, then `int(cfgid)` in front of it when cfgid is truthy. */
  function TagTarget(t: Table, cfgid: Option<Cfgid>, tgtid: string): (r: Result<Table>)
    ensures r.Ok? ==> r.value.columns == FragmentColumns(cfgid)[5..] + t.columns && |r.value.rows| == |t.rows|
    ensures r.Ok? && cfgid.Some? && CfgidTruthy(cfgid.value) ==>
      CfgidInt(cfgid.value).Ok? &&
      forall i :: 0 <= i < |t.rows| ==>
        r.value.rows[i] == t.rows[i]["tgtid" := Str(tgtid)]["cfgid" := Int(CfgidInt(cfgid.value).value)]
    ensures r.Ok? && !(cfgid.Some? && CfgidTruthy(cfgid.value)) ==>
      forall i :: 0 <= i < |t.rows| ==> r.value.rows[i] == t.rows[i]["tgtid" := Str(tgtid)]
    ensures (exists c :: c in FragmentColumns(cfgid)[5..] && c in t.columns) ==> r.Err?
  {
    var t1 :- Insert(t, 0, "tgtid", Str(tgtid));
    if cfgid.Some? && CfgidTruthy(cfgid.value) then
      match CfgidInt(cfgid.value)
      case Err(e) => Err(e)
      case Ok(n) => Insert(t1, 0, "cfgid", Int(n))
    else Ok(t1)
  }

  /**
   * The `df.insert(0, ...)` calls of `read_average_measures` and
   * `read_measurements`, made in reverse order so that the fragment reads
   * dataset, regid, toolkit, command, version, [cfgid,] tgtid, then the file's
   * columns; every row carries the leaf's identity and keeps its own values.
   */
  function PrefixFragment(t: Table, dataset: string, id: LeafId, cfgid: Option<Cfgid>, tgtid: string): (r: Result<Table>)
    ensures r.Ok? ==> r.value.columns == FragmentColumns(cfgid) + t.columns && |r.value.rows| == |t.rows|
    ensures r.Ok? ==> forall i :: 0 <= i < |t.rows| ==> Stamped(r.value.rows[i], dataset, id, cfgid, tgtid)
    ensures r.Ok? ==> forall i, c :: 0 <= i < |t.rows| && c !in FragmentColumns(cfgid) ==>
      Get(r.value.rows[i], c) == Get(t.rows[i], c)
    ensures (exists c :: c in FragmentColumns(cfgid) && c in t.columns) ==> r.Err?
  {
    match TagTarget(t, cfgid, tgtid)
    case Err(e) => Err(e)
    case Ok(t1) =>
      assert FragmentColumns(cfgid) == IdentityColumns + FragmentColumns(cfgid)[5..];
      FragmentRows(t, t1, dataset, id, cfgid, tgtid);
      FrontIdentity(t1, dataset, id)
  }

  /**
   * One fragment row's stamp: the identity values, `int(cfgid)` when cfgid is
   * truthy, and the target name.
   */
  predicate Stamped(row: Row, dataset: string, id: LeafId, cfgid: Option<Cfgid>, tgtid: string)
  {
    Get(row, "dataset") == Str(dataset) && Get(row, "regid") == Str(id.regid) &&
    Get(row, "toolkit") == Str(id.toolkit) && Get(row, "command") == CellOf(id.command) &&
    Get(row, "version") == CellOf(id.version) && Get(row, "tgtid") == Str(tgtid) &&
    (cfgid.Some? && CfgidTruthy(cfgid.value) ==>
      CfgidInt(cfgid.value).Ok? && Get(row, "cfgid") == Int(CfgidInt(cfgid.value).value))
  }

  /** The rows of a fragment, one cell at a time: the identity and target stamps, and the file's own cells. */
  lemma FragmentRows(t: Table, t1: Table, dataset: string, id: LeafId, cfgid: Option<Cfgid>, tgtid: string)
    requires TagTarget(t, cfgid, tgtid) == Ok(t1)
    ensures FrontIdentity(t1, dataset, id).Ok? ==> forall i :: 0 <= i < |t.rows| ==>
      Stamped(FrontIdentity(t1, dataset, id).value.rows[i], dataset, id, cfgid, tgtid)
    ensures FrontIdentity(t1, dataset, id).Ok? ==> forall i, c :: 0 <= i < |t.rows| && c !in FragmentColumns(cfgid) ==>
      Get(FrontIdentity(t1, dataset, id).value.rows[i], c) == Get(t.rows[i], c)
  {
    var r := FrontIdentity(t1, dataset, id);
    if r.Ok? {
      forall i | 0 <= i < |t.rows|
        ensures Stamped(r.value.rows[i], dataset, id, cfgid, tgtid)
      {
        StampGets(t1.rows[i], dataset, id, "tgtid");
        TargetGets(t, cfgid, tgtid, i, "tgtid");
        StampGets(t1.rows[i], dataset, id, "cfgid");
        TargetGets(t, cfgid, tgtid, i, "cfgid");
      }
      forall i, c | 0 <= i < |t.rows| && c !in FragmentColumns(cfgid)
        ensures Get(r.value.rows[i], c) == Get(t.rows[i], c)
      {
        StampGets(t1.rows[i], dataset, id, c);
        TargetGets(t, cfgid, tgtid, i, c);
      }
    }
  }

  /** The identity stamp of FrontIdentity on one row. */
  lemma StampGets(row: Row, dataset: string, id: LeafId, c: string)
    ensures var s := row["version" := CellOf(id.version)]["command" := CellOf(id.command)]
        ["toolkit" := Str(id.toolkit)]["regid" := Str(id.regid)]["dataset" := Str(dataset)];
      Get(s, "dataset") == Str(dataset) && Get(s, "regid") == Str(id.regid) &&
      Get(s, "toolkit") == Str(id.toolkit) && Get(s, "command") == CellOf(id.command) &&
      Get(s, "version") == CellOf(id.version) && (c !in IdentityColumns ==> Get(s, c) == Get(row, c))
  {
  }

  /** The target stamp of TagTarget on one row. */
  lemma TargetGets(t: Table, cfgid: Option<Cfgid>, tgtid: string, i: nat, c: string)
    requires TagTarget(t, cfgid, tgtid).Ok? && i < |t.rows|
    ensures Get(TagTarget(t, cfgid, tgtid).value.rows[i], "tgtid") == Str(tgtid)
    ensures cfgid.Some? && CfgidTruthy(cfgid.value) ==>
      CfgidInt(cfgid.value).Ok? && Get(TagTarget(t, cfgid, tgtid).value.rows[i], "cfgid") == Int(CfgidInt(cfgid.value).value)
    ensures c !in FragmentColumns(cfgid)[5..] ==> Get(TagTarget(t, cfgid, tgtid).value.rows[i], c) == Get(t.rows[i], c)
  {
    assert FragmentColumns(cfgid)[5..] == if cfgid.Some? && CfgidTruthy(cfgid.value) then ["cfgid", "tgtid"] else ["tgtid"];
  }

  // ---------------------------------------------------------------------------
  // get_params

  /** The table used when no parameter file exists: one configuration, cfgid 1. */
  const DefaultParams: Table := Table(["cfgid"], [map["cfgid" := Int(1)]])

  /** A cell compares equal to the integer `n` (pandas compares numbers by value). */
  predicate CellIs(c: Cell, n: int)
  {
    c == Int(n) || (c.Real? && c.x == n as real) || (c.Bool? && n == if c.b then 1 else 0)
  }

  /** `[int(i) for i in ids]`: the first failing conversion raises. */
  function IntsOf(ids: seq<Cfgid>): (r: Result<seq<int>>)
    ensures r.Ok? ==> |r.value| == |ids| && forall i :: 0 <= i < |ids| ==> CfgidInt(ids[i]) == Ok(r.value[i])
    ensures r.Err? ==> exists i :: 0 <= i < |ids| && CfgidInt(ids[i]).Err?
  {
    if ids == [] then Ok([])
    else
      match CfgidInt(ids[0])
      case Err(e) => Err(e)
      case Ok(n) =>
        match IntsOf(ids[1..])
        case Err(e) => Err(e)
        case Ok(ns) => Ok([n] + ns)
  }

  /** The rows whose cfgid cell equals one of `ns`, in order. */
  function RowsWithCfgid(rows: seq<Row>, ns: seq<int>): (r: seq<Row>)
    ensures forall row :: row in r <==> row in rows && exists n :: n in ns && CellIs(Get(row, "cfgid"), n)
    ensures |r| <= |rows|
  {
    if rows == [] then []
    else
      var rest := RowsWithCfgid(rows[1..], ns);
      assert forall row :: row in rows <==> row == rows[0] || row in rows[1..];
      if exists n :: n in ns && CellIs(Get(rows[0], "cfgid"), n) then [rows[0]] + rest else rest
  }

  /**
   * The cfgid filter of `get_params`: a list keeps the rows whose cfgid is one of
   * its integers, a single value keeps the rows equal to it, None keeps all.
   */
  function FilterCfgid(t: Table, cfgid: CfgSel): (r: Result<Table>)
    ensures cfgid.NoCfg? ==> r == Ok(t)
    ensures !cfgid.NoCfg? && "cfgid" !in t.columns ==> r == Err(MissingColumn("cfgid"))
    ensures r.Ok? ==> r.value.columns == t.columns
    ensures r.Ok? && cfgid.CfgOne? ==> forall row :: row in r.value.rows <==>
      row in t.rows && CfgidInt(cfgid.id).Ok? && CellIs(Get(row, "cfgid"), CfgidInt(cfgid.id).value)
  {
    if cfgid.NoCfg? then Ok(t)
    else if "cfgid" !in t.columns then Err(MissingColumn("cfgid"))
    else if CfgIsIterable(cfgid) then
      match IntsOf(CfgItems(cfgid))
      case Err(e) => Err(e)
      case Ok(ns) => Ok(Table(t.columns, RowsWithCfgid(t.rows, ns)))
    else
      match CfgidInt(cfgid.id)
      case Err(e) => Err(e)
      case Ok(n) => Ok(Table(t.columns, RowsWithCfgid(t.rows, [n])))
  }

  /** `cfgid.get(regid, None)` for a cfgid dictionary. */
  function CfgFor(cfgid: CfgSel, regid: string): CfgSel
  {
    if cfgid.CfgDict? then
      match Lookup(cfgid.entries, regid)
      case Ok(c) => c
      case Err(_) => NoCfg
    else cfgid
  }

  /**
   * The leaf of `get_params`: the parameter table of the registration (or the
   * single default configuration when there is no file), filtered by cfgid,
   * with the identity columns in front.
   */
  function ParamsLeaf(st: Store, q: Query): (r: Result<Table>)
    requires IsLeaf(q)
    ensures r.Ok? ==> |r.value.columns| >= 5 && r.value.columns[..5] == IdentityColumns
  {
    var dataset := q.dataset.s;
    var id := LeafIdOf(q);
    var cfgid := CfgFor(q.cfgid, id.regid);
    var table :-
      match ParamsCsv(st, dataset, id.regid, GetRegid(id.toolkit, id.command, None))
      case None => Ok(DefaultParams)
      case Some(p) =>
        match ReadCsv(st, p)
        case Err(e) => Err(e)
        case Ok(df) => FilterCfgid(df, cfgid);
    var r := PrefixParams(table, dataset, id);
    assert r.Ok? ==> r.value.columns[..5] == IdentityColumns by {
      if r.Ok? { assert r.value.columns == IdentityColumns + table.columns; }
    }
    r
  }

  /** Without a parameter file the cfgid argument is ignored and the single row has cfgid 1. */
  lemma ParamsLeafDefault(st: Store, q: Query)
    requires IsLeaf(q)
    requires ParamsCsv(st, q.dataset.s, LeafIdOf(q).regid,
                       GetRegid(LeafIdOf(q).toolkit, LeafIdOf(q).command, None)).None?
    ensures ParamsLeaf(st, q).Ok?
    ensures ParamsLeaf(st, q).value.columns == IdentityColumns + ["cfgid"]
    ensures |ParamsLeaf(st, q).value.rows| == 1 && Get(ParamsLeaf(st, q).value.rows[0], "cfgid") == Int(1)
  {
    PrefixDefault(q.dataset.s, LeafIdOf(q));
    assert ParamsLeaf(st, q) == PrefixParams(DefaultParams, q.dataset.s, LeafIdOf(q));
  }

  lemma PrefixDefault(dataset: string, id: LeafId)
    ensures PrefixParams(DefaultParams, dataset, id).Ok?
    ensures PrefixParams(DefaultParams, dataset, id).value.columns == IdentityColumns + ["cfgid"]
    ensures |PrefixParams(DefaultParams, dataset, id).value.rows| == 1
    ensures Get(PrefixParams(DefaultParams, dataset, id).value.rows[0], "cfgid") == Int(1)
  {
    var r := PrefixParams(DefaultParams, dataset, id);
    assert r.Ok?;
    assert r.value.rows[0] == DefaultParams.rows[0]["dataset" := Str(dataset)]["regid" := Str(id.regid)]
        ["toolkit" := Str(id.toolkit)]["command" := CellOf(id.command)]["version" := CellOf(id.version)];
  }

  // ---------------------------------------------------------------------------
  // read_average_measures and read_measurements

  /** A per-target leaf: also one non-empty target and a non-iterable cfgid. */
  predicate IsTargetLeaf(q: Query)
  {
    IsLeaf(q) && q.tgtid.One? && q.tgtid.s != "" && !CfgIsIterable(q.cfgid)
  }

  /** `<csvdir>/<tgtid><suffix>`. */
  function TargetFile(dir: Path, tgtid: string, suffix: string): Path
  {
    dir + [tgtid + suffix]
  }

  /**
   * The leaf of `read_average_measures`: when `<tgtid>-mean.csv` exists, the
   * mean, sdev and size tables joined on 'roi', with the identity columns in
   * front; otherwise the empty table.
   */
  function AverageLeaf(st: Store, q: Query): (r: Result<Table>)
    requires IsTargetLeaf(q)
    ensures r.Ok? && r.value != Empty ==> |r.value.columns| >= 6 && r.value.columns[..5] == IdentityColumns
  {
    var dataset, tgtid, cfgid := q.dataset.s, q.tgtid.s, CfgOption(q.cfgid);
    var id := LeafIdOf(q);
    var dir :- CsvDir(dataset, Some(id.regid), cfgid);
    if !IsFile(st, TargetFile(dir, tgtid, "-mean.csv")) then Ok(Empty)
    else
      var mean := st.files[TargetFile(dir, tgtid, "-mean.csv")];
      var sdev :- ReadCsv(st, TargetFile(dir, tgtid, "-sdev.csv"));
      var size :- ReadCsv(st, TargetFile(dir, tgtid, "-size.csv"));
      var r := PrefixFragment(st.join(mean, sdev, size), dataset, id, cfgid, tgtid);
      assert r.Ok? ==> r.value.columns[..5] == IdentityColumns by {
        if r.Ok? { assert r.value.columns[..5] == FragmentColumns(cfgid)[..5]; }
      }
      r
  }

  /**
   * The `time` table's renames: `cpu_time` becomes `user` and `wall_time`
   * becomes `real`, each only when present.
   */
  function RenameTimes(t: Table): (r: Table)
    ensures |r.columns| == |t.columns| && |r.rows| == |t.rows|
  {
    var t1 := if "cpu_time" in t.columns then Rename(t, "cpu_time", "user") else t;
    if "wall_time" in t1.columns then Rename(t1, "wall_time", "real") else t1
  }

  /** Only the two time columns change their names; every other column and value stays. */
  lemma RenameTimesEffect(t: Table)
    ensures forall i :: 0 <= i < |t.columns| ==>
      RenameTimes(t).columns[i] ==
        if t.columns[i] == "cpu_time" then "user" else if t.columns[i] == "wall_time" then "real" else t.columns[i]
    ensures forall i, c :: 0 <= i < |t.rows| && c !in ["cpu_time", "user", "wall_time", "real"] ==>
      Get(RenameTimes(t).rows[i], c) == Get(t.rows[i], c)
    ensures "cpu_time" in t.columns ==> forall i :: 0 <= i < |t.rows| ==>
      Get(RenameTimes(t).rows[i], "user") == Get(t.rows[i], "cpu_time")
    ensures "wall_time" in t.columns ==> forall i :: 0 <= i < |t.rows| ==>
      Get(RenameTimes(t).rows[i], "real") == Get(t.rows[i], "wall_time")
  {
    var t1 := if "cpu_time" in t.columns then Rename(t, "cpu_time", "user") else t;
    if "wall_time" in t.columns {
      var k :| 0 <= k < |t.columns| && t.columns[k] == "wall_time";
      assert t1.columns[k] == "wall_time";
    }
  }

  /**
   * The leaf of `read_measurements`: when `<tgtid>-<measure>.csv` exists, its
   * table (time columns renamed for the `time` measure) with the identity
   * columns in front; otherwise the empty table.
   */
  function MeasurementLeaf(st: Store, q: Query): (r: Result<Table>)
    requires IsTargetLeaf(q) && q.measure.One?
    ensures r.Ok? && r.value != Empty ==> |r.value.columns| >= 6 && r.value.columns[..5] == IdentityColumns
  {
    var measure, dataset, tgtid, cfgid := q.measure.s, q.dataset.s, q.tgtid.s, CfgOption(q.cfgid);
    var id := LeafIdOf(q);
    var dir :- CsvDir(dataset, Some(id.regid), cfgid);
    var path := TargetFile(dir, tgtid, "-" + measure + ".csv");
    if !IsFile(st, path) then Ok(Empty)
    else
      var df := st.files[path];
      var df' := if measure == "time" then RenameTimes(df) else df;
      var r := PrefixFragment(df', dataset, id, cfgid, tgtid);
      assert r.Ok? ==> r.value.columns[..5] == IdentityColumns by {
        if r.Ok? { assert r.value.columns[..5] == FragmentColumns(cfgid)[..5]; }
      }
      r
  }

  /** A missing file is an empty fragment, not an error. */
  lemma MissingFileIsEmpty(st: Store, q: Query)
    requires IsTargetLeaf(q) && q.measure.One?
    requires CsvDir(q.dataset.s, Some(LeafIdOf(q).regid), CfgOption(q.cfgid)).Ok?
    requires !IsFile(st, TargetFile(CsvDir(q.dataset.s, Some(LeafIdOf(q).regid), CfgOption(q.cfgid)).value,
                                    q.tgtid.s, "-" + q.measure.s + ".csv"))
    ensures MeasurementLeaf(st, q) == Ok(Empty)
  {
  }

  /** When a regid is given it decides the identity columns: toolkit, command and version arguments are ignored. */
  lemma RegidDecides(st: Store, q: Query, toolkit: Sel, command: Sel, version: Sel)
    requires IsTargetLeaf(q) && Truthy(q.regid)
    requires !IsIterable(toolkit) && !IsIterable(command) && !IsIterable(version)
    ensures AverageLeaf(st, q) == AverageLeaf(st, q.(toolkit := toolkit, command := command, version := version))
    ensures q.measure.One? ==>
      MeasurementLeaf(st, q) == MeasurementLeaf(st, q.(toolkit := toolkit, command := command, version := version))
  {
    AverageRegidDecides(st, q, toolkit, command, version);
    if q.measure.One? {
      MeasurementRegidDecides(st, q, toolkit, command, version);
    }
  }

  /** RegidDecides for `read_average_measures`. */
  lemma AverageRegidDecides(st: Store, q: Query, toolkit: Sel, command: Sel, version: Sel)
    requires IsTargetLeaf(q) && Truthy(q.regid)
    requires !IsIterable(toolkit) && !IsIterable(command) && !IsIterable(version)
    ensures AverageLeaf(st, q) == AverageLeaf(st, q.(toolkit := toolkit, command := command, version := version))
  {
    var q' := q.(toolkit := toolkit, command := command, version := version);
    assert LeafIdOf(q') == LeafIdOf(q);
  }

  /** RegidDecides for `read_measurements`. */
  lemma MeasurementRegidDecides(st: Store, q: Query, toolkit: Sel, command: Sel, version: Sel)
    requires IsTargetLeaf(q) && Truthy(q.regid) && q.measure.One?
    requires !IsIterable(toolkit) && !IsIterable(command) && !IsIterable(version)
    ensures MeasurementLeaf(st, q) == MeasurementLeaf(st, q.(toolkit := toolkit, command := command, version := version))
  {
    var q' := q.(toolkit := toolkit, command := command, version := version);
    assert LeafIdOf(q') == LeafIdOf(q);
  }
}
