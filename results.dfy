/**
 * `read_results`: the same selector recursion as the other query functions,
 * except that the measure is not expanded and cfgid is not passed on, and
 * that each call returns a dictionary from measure name to table; the
 * dictionaries of the sub-queries are merged measure by measure. At the leaf
 * the cfgids are resolved once and every measure is read with them.
 */
module Results {
  import opened Wrappers
  import opened StringUtil
  import opened Tables
  import opened Selectors
  import opened Storage
  import opened Naming
  import opened Identity
  import opened Loader
  import opened Resolver

  /** The dictionary `read_results` returns: measure name to table, in insertion order. */
  type Dfs = seq<(string, Table)>

  /** No key is repeated: each element differs from all those before it. */
  predicate NoRepeats(s: seq<string>)
  {
    s == [] || (s[|s| - 1] !in s[..|s| - 1] && NoRepeats(s[..|s| - 1]))
  }

  lemma NoRepeatsAppend(s: seq<string>, k: string)
    requires NoRepeats(s) && k !in s
    ensures NoRepeats(s + [k])
  {
    assert (s + [k])[..|s|] == s;
  }

  /** A dictionary extended by `Put` keeps its keys unrepeated. */
  lemma PutNoRepeats<V>(es: seq<(string, V)>, k: string, v: V)
    ensures NoRepeats(Keys(es)) ==> NoRepeats(Keys(Put(es, k, v)))
  {
    PutKeys(es, k, v);
    if NoRepeats(Keys(es)) && k !in Keys(es) {
      NoRepeatsAppend(Keys(es), k);
    }
  }

  // ---------------------------------------------------------------------------
  // The recursion

  /** The leaf of `read_results`: every selector but the measure is a scalar. */
  predicate ResultsLeafReady(q: Query)
  {
    Truthy(q.measure) && q.dataset.One? && q.dataset.s != "" &&
    !IsIterable(q.regid) && !IsIterable(q.toolkit) && (Truthy(q.regid) || Truthy(q.toolkit)) &&
    !IsIterable(q.command) && !IsIterable(q.version)
  }

  /**
   * One call of `read_results`: the checks (measure, dataset, regid or
   * toolkit), then the first non-scalar selector among dataset, regid
   * dictionary, regid, toolkit, command and version. The sub-queries keep the
   * measure but lose the cfgid.
   */
  function ResultsPeel(q: Query): (r: Step)
    ensures Check(MeasurementsReader, q).Some? ==> r == Fail(Check(MeasurementsReader, q).value)
    ensures r.Expand? ==> Lowers(q, r.subs)
    ensures r.Expand? ==> forall i :: 0 <= i < |r.subs| ==> r.subs[i].cfgid == NoCfg && r.subs[i].measure == q.measure
    ensures r.Leaf? ==> ResultsLeafReady(r.q) && r.q.cfgid == q.cfgid && r.q.measure == q.measure
  {
    match Check(MeasurementsReader, q)
    case Some(e) => Fail(e)
    case None =>
      if IsIterable(q.dataset) then ResultsExpand(q, DatasetDim)
      else if q.regid.Dict? then ResultsFlatten(q)
      else if IsIterable(q.regid) then ResultsExpand(q, RegidDim)
      else if IsIterable(q.toolkit) then ResultsExpand(q, ToolkitDim)
      else ResultsCommandStage(q)
  }

  /** `for arg in <selector>: read_results(..., arg, ...)`, the cfgid left out. */
  function ResultsExpand(q: Query, d: Dim): (r: Step)
    requires d != MeasureDim && d != TgtidDim && IsIterable(DimSel(q, d))
    ensures r.Expand? && Lowers(q, r.subs)
    ensures forall i :: 0 <= i < |r.subs| ==> r.subs[i].cfgid == NoCfg && r.subs[i].measure == q.measure
  {
    var q0 := q.(cfgid := NoCfg);
    assert Weight(q0) <= Weight(q) && DimSel(q0, d) == DimSel(q, d);
    var subs := Along(q0, d, Items(DimSel(q, d)));
    AlongLowers(q0, d, Items(DimSel(q, d)));
    AlongKeeps(q0, d, Items(DimSel(q, d)));
    LowersFrom(q, q0, subs);
    Expand(subs)
  }

  /** The toolkit expansion of a flattened regid dictionary, the cfgid left out. */
  function ResultsFlatten(q: Query): (r: Step)
    requires q.regid.Dict?
    ensures r.Expand? && Lowers(q, r.subs)
    ensures forall i :: 0 <= i < |r.subs| ==> r.subs[i].cfgid == NoCfg && r.subs[i].measure == q.measure
  {
    FlattenedWithoutCfgid(q);
    FlattenedKeeps(q.(cfgid := NoCfg));
    Expand(Along(Flattened(q.(cfgid := NoCfg)), ToolkitDim, Keys(q.regid.entries)))
  }

  /** Leaving the cfgid out does not undo the lowering of the flattened expansion. */
  lemma FlattenedWithoutCfgid(q: Query)
    requires q.regid.Dict?
    ensures Lowers(q, Along(Flattened(q.(cfgid := NoCfg)), ToolkitDim, Keys(q.regid.entries)))
  {
    var q0 := q.(cfgid := NoCfg);
    FlattenedLowers(q0);
    LowersFrom(q, q0, Along(Flattened(q0), ToolkitDim, Keys(q.regid.entries)));
  }

  /** The toolkit sub-queries of a flattened dictionary keep the measure and the cfgid. */
  lemma FlattenedKeeps(q: Query)
    requires q.regid.Dict?
    ensures forall i :: 0 <= i < |q.regid.entries| ==>
      Along(Flattened(q), ToolkitDim, Keys(q.regid.entries))[i].cfgid == q.cfgid &&
      Along(Flattened(q), ToolkitDim, Keys(q.regid.entries))[i].measure == q.measure
  {
    AlongKeeps(Flattened(q), ToolkitDim, Keys(q.regid.entries));
  }

  /** Expanding any selector but the measure keeps the measure and the cfgid. */
  lemma AlongKeeps(q: Query, d: Dim, xs: seq<string>)
    requires d != MeasureDim
    ensures forall i :: 0 <= i < |xs| ==> Along(q, d, xs)[i].cfgid == q.cfgid && Along(q, d, xs)[i].measure == q.measure
  {
    forall i | 0 <= i < |xs| ensures Along(q, d, xs)[i].cfgid == q.cfgid && Along(q, d, xs)[i].measure == q.measure {
      assert Along(q, d, xs)[i] == With(q, d, xs[i]);
    }
  }

  function ResultsCommandStage(q: Query): (r: Step)
    requires Truthy(q.measure) && q.dataset.One? && q.dataset.s != ""
    requires !IsIterable(q.regid) && !IsIterable(q.toolkit) && (Truthy(q.regid) || Truthy(q.toolkit))
    ensures r.Expand? ==> Lowers(q, r.subs)
    ensures r.Expand? ==> forall i :: 0 <= i < |r.subs| ==> r.subs[i].cfgid == NoCfg && r.subs[i].measure == q.measure
    ensures r.Leaf? ==> ResultsLeafReady(r.q) && r.q.cfgid == q.cfgid && r.q.measure == q.measure
  {
    match CommandSel(q)
    case Err(e) => Fail(e)
    case Ok(c) =>
      var q1 := q.(command := c);
      assert Weight(q1) <= Weight(q);
      if IsIterable(c) then
        var q0 := q1.(cfgid := NoCfg);
        AlongLowers(q0, CommandDim, Items(c));
        LowersFrom(q, q0, Along(q0, CommandDim, Items(c)));
        Expand(Along(q0, CommandDim, Items(c)))
      else
        match VersionSel(q1)
        case Err(e) => Fail(e)
        case Ok(v) =>
          var q2 := q1.(version := v);
          assert Weight(q2) <= Weight(q);
          if IsIterable(v) then
            var q0 := q2.(cfgid := NoCfg);
            AlongLowers(q0, VersionDim, Items(v));
            LowersFrom(q, q0, Along(q0, VersionDim, Items(v)));
            Expand(Along(q0, VersionDim, Items(v)))
          else Leaf(q2)
  }

  /** `dfs[m] = concat(dfs[m], res[m])` or `dfs[m] = res[m]`, for each measure of `res` in order. */
  function Merge(acc: Dfs, res: Dfs): (r: Dfs)
    ensures Keys(acc) <= Keys(r)
  {
    if res == [] then acc
    else MergeOne(Merge(acc, res[..|res| - 1]), res[|res| - 1].0, res[|res| - 1].1)
  }

  /** One measure of the merge: concatenated onto an existing table, or stored as a new one. */
  function MergeOne(d: Dfs, m: string, t: Table): (r: Dfs)
    ensures Keys(r) == if m in Keys(d) then Keys(d) else Keys(d) + [m]
    ensures Lookup(r, m).Ok?
  {
    var merged := match Lookup(d, m) case Ok(before) => Concat(before, t) case Err(_) => t;
    PutKeys(d, m, merged);
    PutLookup(d, m, merged, m);
    Put(d, m, merged)
  }

  /** Merging one table appends its rows to that measure's and leaves the others alone. */
  lemma MergeOneRows(d: Dfs, k: string, t: Table, m: string)
    ensures RowsOf(MergeOne(d, k, t), m) == RowsOf(d, m) + (if m == k then t.rows else [])
  {
    match Lookup(d, k)
    case Ok(before) =>
      PutLookup(d, k, Concat(before, t), m);
      if m == k {
        assert RowsOf(d, m) == before.rows;
      }
    case Err(_) =>
      PutLookup(d, k, t, m);
      if m == k {
        assert RowsOf(d, m) == [];
        assert [] + t.rows == t.rows;
      }
  }

  /** The merged dictionary has the measures of both. */
  lemma {:induction false} MergeKeys(acc: Dfs, res: Dfs)
    ensures forall m :: m in Keys(Merge(acc, res)) <==> m in Keys(acc) || m in Keys(res)
  {
    if res != [] {
      MergeKeys(acc, res[..|res| - 1]);
      MergeStepKeys(acc, res);
      LastKey(res);
    }
  }

  /** Merging one more measure adds that measure and no other. */
  lemma MergeStepKeys(acc: Dfs, res: Dfs)
    requires res != []
    ensures forall x :: x in Keys(Merge(acc, res)) <==> x in Keys(Merge(acc, res[..|res| - 1])) || x == res[|res| - 1].0
  {
    var (m, t) := res[|res| - 1];
    assert Merge(acc, res) == MergeOne(Merge(acc, res[..|res| - 1]), m, t);
  }

  /** The measures of a dictionary are those before its last entry, and that entry's. */
  lemma LastKey(res: Dfs)
    requires res != []
    ensures forall x :: x in Keys(res) <==> x in Keys(res[..|res| - 1]) || x == res[|res| - 1].0
  {
    var init := res[..|res| - 1];
    forall x
      ensures x in Keys(res) <==> x in Keys(init) || x == res[|res| - 1].0
    {
      if x in Keys(res) {
        var i :| 0 <= i < |res| && Keys(res)[i] == x;
        if i < |init| { assert Keys(init)[i] == x; }
      }
      if x in Keys(init) {
        var i :| 0 <= i < |init| && Keys(init)[i] == x;
        assert Keys(res)[i] == x;
      }
      if x == res[|res| - 1].0 { assert Keys(res)[|res| - 1] == x; }
    }
  }

  /** Merging adds no repeated measure. */
  lemma {:induction false} MergeNoRepeats(acc: Dfs, res: Dfs)
    requires NoRepeats(Keys(acc))
    ensures NoRepeats(Keys(Merge(acc, res)))
  {
    if res != [] {
      var prev := Merge(acc, res[..|res| - 1]);
      var (m, t) := res[|res| - 1];
      MergeNoRepeats(acc, res[..|res| - 1]);
      assert Merge(acc, res) == MergeOne(prev, m, t);
      match Lookup(prev, m)
      case Ok(before) => PutNoRepeats(prev, m, Concat(before, t));
      case Err(_) => PutNoRepeats(prev, m, t);
    }
  }

  /** `Merge` as a value: the step MergePrefix folds over the sub-queries. */
  function Merger(): (Dfs, Dfs) -> Dfs
  {
    (acc, res) => Merge(acc, res)
  }

  /**
   * The dictionaries of the first `n` sub-queries folded with `merge`, which
   * `read_results` does with Merger; the first failure is raised.
   */
  function MergePrefix(merge: (Dfs, Dfs) -> Dfs, rs: seq<Result<Dfs>>, n: nat): Result<Dfs>
    requires n <= |rs|
  {
    if n == 0 then Ok([])
    else
      match MergePrefix(merge, rs, n - 1)
      case Err(e) => Err(e)
      case Ok(d) =>
        match rs[n - 1]
        case Err(e) => Err(e)
        case Ok(res) => Ok(merge(d, res))
  }

  /** The merged dictionary never repeats a measure. */
  lemma MergePrefixNoRepeats(rs: seq<Result<Dfs>>, n: nat)
    requires n <= |rs|
    ensures MergePrefix(Merger(), rs, n).Ok? ==> NoRepeats(Keys(MergePrefix(Merger(), rs, n).value))
  {
    var inv := (d: Dfs) => NoRepeats(Keys(d));
    forall a, b | inv(a) ensures inv(Merger()(a, b)) {
      MergeNoRepeats(a, b);
    }
    FoldKeeps(Merger(), inv, rs, n);
  }

  /** A property of dictionaries every merge step preserves holds of every merged prefix. */
  lemma {:induction false} FoldKeeps(merge: (Dfs, Dfs) -> Dfs, inv: Dfs -> bool, rs: seq<Result<Dfs>>, n: nat)
    requires n <= |rs| && inv([])
    requires forall a, b :: inv(a) ==> inv(merge(a, b))
    ensures MergePrefix(merge, rs, n).Ok? ==> inv(MergePrefix(merge, rs, n).value)
  {
    if n > 0 && MergePrefix(merge, rs, n).Ok? {
      FoldKeeps(merge, inv, rs, n - 1);
      assert MergePrefix(merge, rs, n).value == merge(MergePrefix(merge, rs, n - 1).value, rs[n - 1].value);
    }
  }

  /** `read_results` as a function of the store. */
  function Results(st: Store, q: Query): (r: Result<Dfs>)
    ensures r.Ok? ==> NoRepeats(Keys(r.value))
    ensures !Truthy(q.measure) ==> r == Err(MissingMeasure)
    ensures Truthy(q.measure) && !Truthy(q.dataset) ==> r == Err(MissingDataset)
    ensures (Truthy(q.measure) && Truthy(q.dataset) && !Truthy(q.regid) && !Truthy(q.toolkit)) ==>
      r == Err(MissingRegidOrToolkit)
    decreases Weight(q)
  {
    match ResultsPeel(q)
    case Fail(e) => Err(e)
    case Leaf(l) => ResultsLeaf(st, l)
    case Expand(subs) =>
      MergePrefixNoRepeats(SubDfs(st, q, subs), |subs|);
      MergePrefix(Merger(), SubDfs(st, q, subs), |subs|)
  }

  function SubDfs(st: Store, q: Query, subs: seq<Query>): (rs: seq<Result<Dfs>>)
    requires Lowers(q, subs)
    ensures |rs| == |subs| && forall i :: 0 <= i < |subs| ==> rs[i] == Results(st, subs[i])
    decreases Weight(q), 0
  {
    seq(|subs|, i requires 0 <= i < |subs| => Results(st, subs[i]))
  }

  // ---------------------------------------------------------------------------
  // The leaf

  /** `measure` or `[measure]`. */
  function MeasureList(s: Sel): seq<string>
    requires Truthy(s)
  {
    if IsIterable(s) then Items(s) else [s.s]
  }

  /** A truthy regid is used as given (not decoded); otherwise it is encoded from its parts. */
  function LeafRegid(q: Query): (r: string)
    requires ResultsLeafReady(q)
    ensures r != ""
    ensures Truthy(q.regid) ==> r == q.regid.s
  {
    if Truthy(q.regid) then q.regid.s
    else
      var r := GetRegid(q.toolkit.s, OptionOf(q.command), OptionOf(q.version));
      assert r[..|q.toolkit.s|] == q.toolkit.s;
      r
  }

  /** The arguments of the per-measure reads: one dataset, one regid, the resolved cfgids. */
  function LeafQuery(dataset: string, regid: string, cfgids: CfgSel): Query
  {
    Query(Absent, One(dataset), One(regid), Absent, Absent, Absent, cfgids, Absent)
  }

  /**
   * The cfgids of a leaf: none for `affine`; a dictionary is looked up by
   * regid and, when that gives a dictionary again, by dataset; a list is used
   * as it is and a single value is wrapped in a list; without a cfgid, the
   * parameter sets whose result directory exists.
   */
  function Cfgids(st: Store, dataset: string, regid: string, cfgid: CfgSel): (r: Result<CfgSel>)
    requires dataset != "" && regid != ""
    ensures regid == "affine" ==> r == Ok(CfgMany([]))
    ensures regid != "affine" && cfgid.CfgOne? ==> r == Ok(CfgMany([cfgid.id]))
    ensures regid != "affine" && cfgid.CfgMany? ==> r == Ok(cfgid)
    ensures regid != "affine" && cfgid.CfgDict? && regid !in Keys(cfgid.entries) ==> r == Err(NoSuchKey(regid))
  {
    if regid == "affine" then Ok(CfgMany([]))
    else
      match cfgid
      case CfgDict(es) =>
        (match Lookup(es, regid)
         case Err(e) => Err(e)
         case Ok(c) => if c.CfgDict? then Lookup(c.entries, dataset) else Ok(c))
      case CfgMany(_) => Ok(cfgid)
      case CfgOne(id) => Ok(CfgMany([id]))
      case NoCfg =>
        match DefaultCfgids(st, dataset, regid)
        case Err(e) => Err(e)
        case Ok(ids) => Ok(CfgMany(ids))
  }

  function ParamsQuery(dataset: string, regid: string): Query
  {
    Query(Absent, One(dataset), One(regid), Absent, Absent, Absent, NoCfg, Absent)
  }

  /** The `cfgid` column of `get_params(dataset, regid)`, kept where `get_csvdir(dataset, regid, cfgid)` is a directory. */
  function DefaultCfgids(st: Store, dataset: string, regid: string): (r: Result<seq<Cfgid>>)
    requires dataset != "" && regid != ""
    ensures r.Ok? ==> forall c :: c in r.value ==>
      CsvDir(dataset, Some(regid), Some(c)).Ok? && IsDir(st, CsvDir(dataset, Some(regid), Some(c)).value)
  {
    match Resolved(ParamsReader, st, ParamsQuery(dataset, regid))
    case Err(e) => Err(e)
    case Ok(params) =>
      if "cfgid" !in params.columns then Err(MissingColumn("cfgid"))
      else
        ExistingCfgidsAreDirs(st, dataset, regid, params.rows, |params.rows|);
        ExistingCfgids(st, dataset, regid, params.rows, |params.rows|)
  }

  /** The cfgid of one parameter row. */
  function RowCfgid(row: Row): Cfgid
  {
    CellCfgid(Get(row, "cfgid"))
  }

  /** The loop over the first `n` parameter rows; a cfgid that cannot name a directory raises. */
  function ExistingCfgids(st: Store, dataset: string, regid: string, rows: seq<Row>, n: nat): Result<seq<Cfgid>>
    requires n <= |rows|
  {
    if n == 0 then Ok([])
    else
      match ExistingCfgids(st, dataset, regid, rows, n - 1)
      case Err(e) => Err(e)
      case Ok(prev) =>
        var c := RowCfgid(rows[n - 1]);
        match CsvDir(dataset, Some(regid), Some(c))
        case Err(e) => Err(e)
        case Ok(dir) => Ok(if IsDir(st, dir) then prev + [c] else prev)
  }

  /** Only cfgids whose directory exists are kept. */
  lemma {:induction false} ExistingCfgidsAreDirs(st: Store, dataset: string, regid: string, rows: seq<Row>, n: nat)
    requires n <= |rows|
    ensures ExistingCfgids(st, dataset, regid, rows, n).Ok? ==> forall c :: c in ExistingCfgids(st, dataset, regid, rows, n).value ==>
      CsvDir(dataset, Some(regid), Some(c)).Ok? && IsDir(st, CsvDir(dataset, Some(regid), Some(c)).value)
  {
    if n > 0 {
      ExistingCfgidsAreDirs(st, dataset, regid, rows, n - 1);
    }
  }

  /** Every parameter row whose directory exists contributes its cfgid. */
  lemma {:induction false} ExistingCfgidsKept(st: Store, dataset: string, regid: string, rows: seq<Row>, n: nat, i: nat)
    requires i < n <= |rows| && ExistingCfgids(st, dataset, regid, rows, n).Ok?
    ensures CsvDir(dataset, Some(regid), Some(RowCfgid(rows[i]))).Ok?
    ensures IsDir(st, CsvDir(dataset, Some(regid), Some(RowCfgid(rows[i]))).value) ==>
      RowCfgid(rows[i]) in ExistingCfgids(st, dataset, regid, rows, n).value
  {
    var prev := ExistingCfgids(st, dataset, regid, rows, n - 1);
    assert prev.Ok?;
    if i < n - 1 {
      ExistingCfgidsKept(st, dataset, regid, rows, n - 1, i);
    }
  }

  /** A failure comes from a cfgid that cannot name a directory. */
  lemma {:induction false} ExistingCfgidsFails(st: Store, dataset: string, regid: string, rows: seq<Row>, n: nat)
    requires n <= |rows| && ExistingCfgids(st, dataset, regid, rows, n).Err?
    ensures exists i :: 0 <= i < n && CsvDir(dataset, Some(regid), Some(RowCfgid(rows[i]))).Err?
  {
    if ExistingCfgids(st, dataset, regid, rows, n - 1).Err? {
      ExistingCfgidsFails(st, dataset, regid, rows, n - 1);
    } else {
      assert CsvDir(dataset, Some(regid), Some(RowCfgid(rows[n - 1]))).Err?;
    }
  }

  /** The reads of one leaf: `dfs[m]` for every measure, in order; a repeated measure is read again. */
  function ResultsLeaf(st: Store, q: Query): (r: Result<Dfs>)
    requires ResultsLeafReady(q)
    ensures r.Ok? ==> NoRepeats(Keys(r.value)) && forall m :: m in Keys(r.value) <==> m in MeasureList(q.measure)
  {
    var regid := LeafRegid(q);
    match Cfgids(st, q.dataset.s, regid, q.cfgid)
    case Err(e) => Err(e)
    case Ok(cfgids) =>
      var ms := MeasureList(q.measure);
      assert ms[..|ms|] == ms;
      MeasureTablesKeys(MeasureReader(st, q.dataset.s, regid, cfgids), ms, |ms|);
      MeasureTablesNoRepeats(MeasureReader(st, q.dataset.s, regid, cfgids), ms, |ms|);
      MeasureTables(MeasureReader(st, q.dataset.s, regid, cfgids), ms, |ms|)
  }

  /** The read of one measure of a leaf, as a function of the measure. */
  function MeasureReader(st: Store, dataset: string, regid: string, cfgids: CfgSel): string -> Result<Table>
  {
    m => MeasureTable(st, dataset, regid, cfgids, m)
  }

  /** The loop `for m in measure: dfs[m] = read(m)` over the first `n` measures. */
  function MeasureTables<V>(read: string -> Result<V>, ms: seq<string>, n: nat): Result<seq<(string, V)>>
    requires n <= |ms|
  {
    if n == 0 then Ok([])
    else
      match MeasureTables(read, ms, n - 1)
      case Err(e) => Err(e)
      case Ok(prev) =>
        match read(ms[n - 1])
        case Err(e) => Err(e)
        case Ok(df) => Ok(Put(prev, ms[n - 1], df))
  }

  /** `dfs[m] = ...` never repeats a key. */
  lemma {:induction false} MeasureTablesNoRepeats<V>(read: string -> Result<V>, ms: seq<string>, n: nat)
    requires n <= |ms|
    ensures MeasureTables(read, ms, n).Ok? ==> NoRepeats(Keys(MeasureTables(read, ms, n).value))
  {
    if n > 0 && MeasureTables(read, ms, n).Ok? {
      var prev := MeasureTables(read, ms, n - 1);
      MeasureTablesNoRepeats(read, ms, n - 1);
      PutNoRepeats(prev.value, ms[n - 1], read(ms[n - 1]).value);
    }
  }

  /** The dictionary holds exactly the measures read so far. */
  lemma {:induction false} MeasureTablesKeys<V>(read: string -> Result<V>, ms: seq<string>, n: nat)
    requires n <= |ms|
    ensures MeasureTables(read, ms, n).Ok? ==> forall m :: m in Keys(MeasureTables(read, ms, n).value) <==> m in ms[..n]
  {
    if n > 0 && MeasureTables(read, ms, n).Ok? {
      MeasureTablesLast(read, ms, n);
      var prev := MeasureTables(read, ms, n - 1).value;
      var last := ms[n - 1];
      MeasureTablesKeys(read, ms, n - 1);
      assert ms[..n] == ms[..n - 1] + [last];
      PutKeys(prev, last, read(last).value);
    }
  }

  /** `dfs[m]` is what reading `m` gave, for every measure read. */
  lemma {:induction false} MeasureTablesLookup<V>(read: string -> Result<V>, ms: seq<string>, n: nat, i: nat)
    requires i < n <= |ms| && MeasureTables(read, ms, n).Ok?
    ensures Lookup(MeasureTables(read, ms, n).value, ms[i]) == read(ms[i])
  {
    MeasureTablesLookupStep(read, ms, n, ms[i]);
    if ms[i] != ms[n - 1] {
      MeasureTablesLookup(read, ms, n - 1, i);
    }
  }

  /** Looking a measure up after one more read: the new table, or what the earlier reads gave. */
  lemma MeasureTablesLookupStep<V>(read: string -> Result<V>, ms: seq<string>, n: nat, m: string)
    requires 0 < n <= |ms| && MeasureTables(read, ms, n).Ok?
    ensures MeasureTables(read, ms, n - 1).Ok?
    ensures Lookup(MeasureTables(read, ms, n).value, m) ==
      if m == ms[n - 1] then read(m) else Lookup(MeasureTables(read, ms, n - 1).value, m)
  {
    MeasureTablesLast(read, ms, n);
    PutLookup(MeasureTables(read, ms, n - 1).value, ms[n - 1], read(ms[n - 1]).value, m);
  }

  /** A successful read of `n` measures extends the successful read of `n - 1`. */
  lemma MeasureTablesLast<V>(read: string -> Result<V>, ms: seq<string>, n: nat)
    requires 0 < n <= |ms| && MeasureTables(read, ms, n).Ok?
    ensures MeasureTables(read, ms, n - 1).Ok? && read(ms[n - 1]).Ok?
    ensures MeasureTables(read, ms, n).value ==
      Put(MeasureTables(read, ms, n - 1).value, ms[n - 1], read(ms[n - 1]).value)
  {
  }

  /** A failure comes from the read of one of the measures. */
  lemma {:induction false} MeasureTablesFails<V>(read: string -> Result<V>, ms: seq<string>, n: nat)
    requires n <= |ms| && MeasureTables(read, ms, n).Err?
    ensures exists i :: 0 <= i < n && read(ms[i]).Err?
  {
    if MeasureTables(read, ms, n - 1).Err? {
      MeasureTablesFails(read, ms, n - 1);
    } else {
      assert read(ms[n - 1]).Err?;
    }
  }

  /**
   * One measure of a leaf: `vox` reads the averaged measures, `jac` reads
   * `logjac` and derives `pctexcl`, `dsc` is cut and melted; every table then
   * loses the rows that compare an image with itself.
   */
  function MeasureTable(st: Store, dataset: string, regid: string, cfgids: CfgSel, m: string): (r: Result<Table>)
    ensures m == "vox" && Resolved(AverageReader, st, LeafQuery(dataset, regid, cfgids)).Err? ==>
      r == Resolved(AverageReader, st, LeafQuery(dataset, regid, cfgids))
    ensures r.Ok? && "tgtid" in r.value.columns && "srcid" in r.value.columns ==>
      forall row :: row in r.value.rows ==> !SelfPair(row)
  {
    var q := LeafQuery(dataset, regid, cfgids);
    var df :-
      if m == "vox" then Resolved(AverageReader, st, q)
      else if m == "jac" then
        match Resolved(MeasurementsReader, st, q.(measure := One("logjac")))
        case Err(e) => Err(e)
        case Ok(t) => Ok(WithPctexcl(st, t))
      else
        match Resolved(MeasurementsReader, st, q.(measure := One(m)))
        case Err(e) => Err(e)
        case Ok(t) => if m == "dsc" then OverlapLong(t) else Ok(t);
    Ok(DropSelfPairs(df))
  }

  // ---------------------------------------------------------------------------
  // Post-processing

  /** `df.assign(pctexcl=...)` when `nexcl` and `n` are present and `pctexcl` is not. */
  function WithPctexcl(st: Store, t: Table): (r: Table)
    ensures ("nexcl" in t.columns && "n" in t.columns && "pctexcl" !in t.columns) ==>
      r.columns == t.columns + ["pctexcl"] && |r.rows| == |t.rows| &&
      forall i :: 0 <= i < |t.rows| ==>
        r.rows[i] == t.rows[i]["pctexcl" := st.pctexcl(Get(t.rows[i], "nexcl"), Get(t.rows[i], "n"))]
    ensures !("nexcl" in t.columns && "n" in t.columns && "pctexcl" !in t.columns) ==> r == t
  {
    if "nexcl" in t.columns && "n" in t.columns && "pctexcl" !in t.columns then
      SetColumn(t, "pctexcl",
        seq(|t.rows|, i requires 0 <= i < |t.rows| => st.pctexcl(Get(t.rows[i], "nexcl"), Get(t.rows[i], "n"))))
    else t
  }

  /** `x.split('-')[0]`: everything before the first dash. */
  function BeforeDash(s: string): (r: string)
    ensures '-' !in r && |r| <= |s| && r == s[..|r|]
    ensures |r| < |s| ==> s[|r|] == '-'
  {
    match FirstIndex(s, '-')
    case None => s
    case Some(i) => s[..i]
  }

  /** The cut `srcid` cells of the first `n` rows; a missing (NaN) cell has no `split`. */
  function CutCells(rows: seq<Row>, n: nat): (r: Result<seq<Cell>>)
    requires n <= |rows|
    ensures r.Ok? ==> |r.value| == n && forall i :: 0 <= i < n ==>
      Get(rows[i], "srcid").Str? && r.value[i] == Str(BeforeDash(Get(rows[i], "srcid").s))
    ensures r.Err? ==> r == Err(NotAString) && exists i :: 0 <= i < n && !Get(rows[i], "srcid").Str?
  {
    if n == 0 then Ok([])
    else
      match CutCells(rows, n - 1)
      case Err(e) => Err(e)
      case Ok(prev) =>
        var c := Get(rows[n - 1], "srcid");
        if c.Str? then Ok(prev + [Str(BeforeDash(c.s))]) else Err(NotAString)
  }

  /** `df.srcid = df.srcid.map(lambda x: x.split('-')[0])`. */
  function CutSrcids(t: Table): (r: Result<Table>)
    requires "srcid" in t.columns
    ensures r.Ok? ==> r.value.columns == t.columns && |r.value.rows| == |t.rows|
    ensures r.Ok? ==> forall i :: 0 <= i < |t.rows| ==>
      Get(t.rows[i], "srcid").Str? &&
      r.value.rows[i] == t.rows[i]["srcid" := Str(BeforeDash(Get(t.rows[i], "srcid").s))]
  {
    match CutCells(t.rows, |t.rows|)
    case Err(e) => Err(e)
    case Ok(cells) => Ok(SetColumn(t, "srcid", cells))
  }

  const OverlapIds: seq<string> := ["dataset", "regid", "toolkit", "command", "version", "cfgid", "tgtid", "srcid"]

  /** `df.columns.intersection(ids)`: the identifying columns, in the table's order. */
  function IdVars(cols: seq<string>): (r: seq<string>)
    ensures forall c :: c in r <==> c in cols && c in OverlapIds
  {
    if cols == [] then []
    else
      var rest := IdVars(cols[1..]);
      assert forall c :: c in cols <==> c == cols[0] || c in cols[1..];
      if cols[0] in OverlapIds then [cols[0]] + rest else rest
  }

  /** The columns `melt` turns into rows: all the others, in the table's order. */
  function ValueVars(cols: seq<string>, ids: seq<string>): (r: seq<string>)
    ensures forall c :: c in r <==> c in cols && c !in ids
  {
    if cols == [] then []
    else
      var rest := ValueVars(cols[1..], ids);
      assert forall c :: c in cols <==> c == cols[0] || c in cols[1..];
      if cols[0] !in ids then [cols[0]] + rest else rest
  }

  /** One output row of `melt`: the identifying values, the column name as `label`, its cell as `dsc`. */
  function MeltRow(row: Row, ids: seq<string>, column: string): (r: Row)
    ensures Get(r, "label") == Str(column) && Get(r, "dsc") == Get(row, column)
    ensures forall k :: k in ids && k != "label" && k != "dsc" ==> Get(r, k) == Get(row, k)
  {
    (map k | k in ids :: Get(row, k))["label" := Str(column)]["dsc" := Get(row, column)]
  }

  /** The rows of `melt`: column by column, and within a column row by row. */
  function MeltRows(rows: seq<Row>, ids: seq<string>, vals: seq<string>): (r: seq<Row>)
    ensures |r| == |vals| * |rows|
  {
    if vals == [] then []
    else
      MeltRows(rows, ids, vals[..|vals| - 1]) +
      seq(|rows|, i requires 0 <= i < |rows| => MeltRow(rows[i], ids, vals[|vals| - 1]))
  }

  /** Row `j * |rows| + i` of the melted table is row `i` of the input read at value column `j`. */
  lemma {:induction false} MeltOrder(rows: seq<Row>, ids: seq<string>, vals: seq<string>, j: nat, i: nat)
    requires j < |vals| && i < |rows|
    ensures j * |rows| + i < |MeltRows(rows, ids, vals)|
    ensures MeltRows(rows, ids, vals)[j * |rows| + i] == MeltRow(rows[i], ids, vals[j])
  {
    var n := |vals| - 1;
    var prefix := MeltRows(rows, ids, vals[..n]);
    assert |prefix| == n * |rows|;
    if j < n {
      MeltOrder(rows, ids, vals[..n], j, i);
      assert vals[..n][j] == vals[j];
    } else {
      assert j * |rows| + i == |prefix| + i;
    }
  }

  /**
   * The `dsc` table in long form: srcid cut at its first dash, then one row
   * per (input row, value column) with `label` and `dsc`.
   */
  function OverlapLong(t: Table): (r: Result<Table>)
    ensures r.Ok? ==> r.value.columns == IdVars(t.columns) + ["label", "dsc"]
    ensures r.Ok? ==> |r.value.rows| == |ValueVars(t.columns, IdVars(t.columns))| * |t.rows|
    ensures "srcid" !in t.columns ==> r.Ok?
  {
    var t1 :- if "srcid" in t.columns then CutSrcids(t) else Ok(t);
    var ids := IdVars(t1.columns);
    Ok(Table(ids + ["label", "dsc"], MeltRows(t1.rows, ids, ValueVars(t1.columns, ids))))
  }

  /** A row that compares an image with itself: equal, non-missing tgtid and srcid. */
  predicate SelfPair(row: Row)
  {
    Get(row, "tgtid") != Null && Get(row, "tgtid") == Get(row, "srcid")
  }

  function KeepOtherPairs(rows: seq<Row>): (r: seq<Row>)
    ensures forall row :: row in r <==> row in rows && !SelfPair(row)
    ensures |r| <= |rows|
  {
    if rows == [] then []
    else
      var rest := KeepOtherPairs(rows[1..]);
      assert forall row :: row in rows <==> row == rows[0] || row in rows[1..];
      if SelfPair(rows[0]) then rest else [rows[0]] + rest
  }

  /** `df[df.tgtid != df.srcid]` when both columns exist; a missing value compares unequal. */
  function DropSelfPairs(t: Table): (r: Table)
    ensures r.columns == t.columns
    ensures "tgtid" in t.columns && "srcid" in t.columns ==>
      forall row :: row in r.rows <==> row in t.rows && !SelfPair(row)
    ensures !("tgtid" in t.columns && "srcid" in t.columns) ==> r == t
  {
    if "tgtid" in t.columns && "srcid" in t.columns then Table(t.columns, KeepOtherPairs(t.rows)) else t
  }

  // ---------------------------------------------------------------------------
  // Properties

  /** The rows filed under measure `m`, none when it is missing. */
  function RowsOf(d: Dfs, m: string): seq<Row>
  {
    match Lookup(d, m)
    case Ok(t) => t.rows
    case Err(_) => []
  }

  /** Reading a dictionary extended by one new key. */
  lemma {:induction false} LookupAppend(es: Dfs, p: (string, Table), m: string)
    ensures Lookup(es + [p], m) ==
      if m in Keys(es) then Lookup(es, m) else if m == p.0 then Ok(p.1) else Err(NoSuchKey(m))
  {
    if es != [] {
      LookupAppend(es[1..], p, m);
      assert (es + [p])[1..] == es[1..] + [p];
      assert Keys(es) == [es[0].0] + Keys(es[1..]);
    }
  }

  /** Merging appends, measure by measure, the rows of the new dictionary after those already there. */
  lemma {:induction false} MergeRows(acc: Dfs, res: Dfs, m: string)
    requires NoRepeats(Keys(res))
    ensures RowsOf(Merge(acc, res), m) == RowsOf(acc, m) + RowsOf(res, m)
  {
    if res != [] {
      var init := res[..|res| - 1];
      var (k, t) := res[|res| - 1];
      assert res == init + [(k, t)];
      assert Keys(res) == Keys(init) + [k];
      assert NoRepeats(Keys(init)) by {
        assert Keys(init) == Keys(res)[..|res| - 1];
      }
      MergeRows(acc, init, m);
      RowsOfAppend(init, k, t, m);
      MergeRowsStep(acc, init, k, t, m);
    }
  }

  /** A new last key adds its rows to its own measure only. */
  lemma RowsOfAppend(init: Dfs, k: string, t: Table, m: string)
    requires k !in Keys(init)
    ensures RowsOf(init + [(k, t)], m) == RowsOf(init, m) + (if m == k then t.rows else [])
  {
    LookupAppend(init, (k, t), m);
  }

  lemma MergeRowsStep(acc: Dfs, init: Dfs, k: string, t: Table, m: string)
    requires RowsOf(Merge(acc, init), m) == RowsOf(acc, m) + RowsOf(init, m)
    requires RowsOf(init + [(k, t)], m) == RowsOf(init, m) + (if m == k then t.rows else [])
    ensures RowsOf(Merge(acc, init + [(k, t)]), m) == RowsOf(acc, m) + RowsOf(init + [(k, t)], m)
  {
    var res := init + [(k, t)];
    assert res[..|res| - 1] == init && res[|res| - 1] == (k, t);
    assert Merge(acc, res) == MergeOne(Merge(acc, init), k, t);
    MergeOneRows(Merge(acc, init), k, t, m);
    AppendAssoc(RowsOf(acc, m), RowsOf(init, m), if m == k then t.rows else []);
  }

  /** The rows of one measure in a dictionary, as a value. */
  function RowsFor(m: string): Dfs -> seq<Row>
  {
    d => RowsOf(d, m)
  }

  /** The rows `rows` picks from each of the first `n` sub-dictionaries, in order (a failed one gives none). */
  function Gathered(rows: Dfs -> seq<Row>, rs: seq<Result<Dfs>>, n: nat): seq<Row>
    requires n <= |rs|
  {
    if n == 0 then [] else Gathered(rows, rs, n - 1) + (if rs[n - 1].Ok? then rows(rs[n - 1].value) else [])
  }

  lemma MergePrefixRows(rs: seq<Result<Dfs>>, n: nat, m: string)
    requires n <= |rs| && forall i :: 0 <= i < n ==> rs[i].Ok? && NoRepeats(Keys(rs[i].value))
    ensures MergePrefix(Merger(), rs, n).Ok?
    ensures RowsOf(MergePrefix(Merger(), rs, n).value, m) == Gathered(RowsFor(m), rs, n)
  {
    var rows := RowsFor(m);
    assert rows([]) == [];
    forall i, a | 0 <= i < n
      ensures rows(Merger()(a, rs[i].value)) == rows(a) + rows(rs[i].value)
    {
      MergeRows(a, rs[i].value, m);
    }
    FoldRows(Merger(), rows, rs, n);
  }

  /** Any fold whose step appends the picked rows gathers them in order. */
  lemma {:induction false} FoldRows(merge: (Dfs, Dfs) -> Dfs, rows: Dfs -> seq<Row>, rs: seq<Result<Dfs>>, n: nat)
    requires n <= |rs| && forall i :: 0 <= i < n ==> rs[i].Ok?
    requires rows([]) == []
    requires forall i, a :: 0 <= i < n ==> rows(merge(a, rs[i].value)) == rows(a) + rows(rs[i].value)
    ensures MergePrefix(merge, rs, n).Ok? && rows(MergePrefix(merge, rs, n).value) == Gathered(rows, rs, n)
  {
    if n > 0 {
      FoldRows(merge, rows, rs, n - 1);
      var prev, res := MergePrefix(merge, rs, n - 1).value, rs[n - 1].value;
      assert MergePrefix(merge, rs, n) == Ok(merge(prev, res));
      assert rows(merge(prev, res)) == rows(prev) + rows(res);
      assert Gathered(rows, rs, n) == Gathered(rows, rs, n - 1) + rows(res);
    }
  }

  /**
   * When no sub-query fails, the table of each measure holds the rows of that
   * measure from every sub-query, in order.
   */
  lemma ResultsRows(st: Store, q: Query, subs: seq<Query>, m: string)
    requires ResultsPeel(q) == Expand(subs)
    requires forall i :: 0 <= i < |subs| ==> Results(st, subs[i]).Ok?
    ensures Results(st, q).Ok? && RowsOf(Results(st, q).value, m) == Gathered(RowsFor(m), SubDfs(st, q, subs), |subs|)
  {
    MergePrefixRows(SubDfs(st, q, subs), |subs|, m);
  }

  /**
   * For `affine` the cfgid list is empty: the averaged measures are an empty
   * table, the pairwise measures are read as without cfgid.
   */
  lemma AffineCfgids(st: Store, dataset: string, cfgid: CfgSel, m: string)
    requires dataset != ""
    ensures Cfgids(st, dataset, "affine", cfgid) == Ok(CfgMany([]))
    ensures MeasureTable(st, dataset, "affine", CfgMany([]), "vox") == Ok(Empty)
    ensures m != "vox" ==>
      MeasureTable(st, dataset, "affine", CfgMany([]), m) == MeasureTable(st, dataset, "affine", NoCfg, m)
  {
    var q := LeafQuery(dataset, "affine", NoCfg);
    assert q.(cfgid := CfgMany([])) == LeafQuery(dataset, "affine", CfgMany([]));
    AffineVox(st, dataset);
    if m != "vox" {
      AffineMeasure(st, dataset, m);
    }
  }

  /** With the empty cfgid list of an affine regid, `vox` reads nothing. */
  lemma AffineVox(st: Store, dataset: string)
    requires dataset != ""
    ensures MeasureTable(st, dataset, "affine", CfgMany([]), "vox") == Ok(Empty)
  {
    var q := LeafQuery(dataset, "affine", NoCfg);
    EmptyCfgidAverage(st, q);
    assert q.(cfgid := CfgMany([])) == LeafQuery(dataset, "affine", CfgMany([]));
  }

  /** With the empty cfgid list of an affine regid, any other measure is read as with no cfgid at all. */
  lemma AffineMeasure(st: Store, dataset: string, m: string)
    requires dataset != "" && m != "vox"
    ensures MeasureTable(st, dataset, "affine", CfgMany([]), m) == MeasureTable(st, dataset, "affine", NoCfg, m)
  {
    var q := LeafQuery(dataset, "affine", NoCfg);
    assert q.(cfgid := CfgMany([])) == LeafQuery(dataset, "affine", CfgMany([]));
    if m == "jac" {
      EmptyCfgidMeasurements(st, q.(measure := One("logjac")));
    } else if m != "" {
      EmptyCfgidMeasurements(st, q.(measure := One(m)));
    }
  }

  // ---------------------------------------------------------------------------
  // The loops

  /** `read_results`. */
  method ReadResults(st: Store, q: Query) returns (r: Result<Dfs>)
    ensures r == Results(st, q)
    decreases Weight(q), 1
  {
    match ResultsPeel(q)
    case Fail(e) =>
      r := Err(e);
    case Leaf(l) =>
      r := ReadLeaf(st, l);
    case Expand(subs) =>
      r := ReadAllResults(st, q, subs);
  }

  /** The loops over the sub-queries: after `i` of them `dfs` holds their merged dictionaries. */
  method ReadAllResults(st: Store, q: Query, subs: seq<Query>) returns (r: Result<Dfs>)
    requires Lowers(q, subs)
    ensures r == MergePrefix(Merger(), SubDfs(st, q, subs), |subs|)
    decreases Weight(q), 0
  {
    ghost var rs := SubDfs(st, q, subs);
    var dfs: Dfs := [];
    var i := 0;
    while i < |subs|
      invariant 0 <= i <= |subs|
      invariant MergePrefix(Merger(), rs, i) == Ok(dfs)
    {
      var res := ReadResults(st, subs[i]);
      if res.Err? {
        MergePrefixFailureStays(Merger(), rs, i + 1, |subs|);
        return res;
      }
      dfs := MergeInto(dfs, res.value);
      i := i + 1;
    }
    r := Ok(dfs);
  }

  lemma {:induction false} MergePrefixFailureStays(merge: (Dfs, Dfs) -> Dfs, rs: seq<Result<Dfs>>, n: nat, m: nat)
    requires n <= m <= |rs| && MergePrefix(merge, rs, n).Err?
    ensures MergePrefix(merge, rs, m) == MergePrefix(merge, rs, n)
    decreases m - n
  {
    if n < m {
      MergePrefixFailureStays(merge, rs, n, m - 1);
    }
  }

  /** `for m in res: ...`: the merge of one sub-query's dictionary. */
  method MergeInto(dfs: Dfs, res: Dfs) returns (r: Dfs)
    ensures r == Merge(dfs, res)
  {
    r := dfs;
    var j := 0;
    while j < |res|
      invariant 0 <= j <= |res|
      invariant r == Merge(dfs, res[..j])
    {
      MergeSnoc(dfs, res, j);
      r := MergeStep(r, res[j].0, res[j].1);
      j := j + 1;
    }
    assert res[..|res|] == res;
  }

  /** Merging one more entry of `res` is one more MergeOne. */
  lemma MergeSnoc(acc: Dfs, res: Dfs, j: nat)
    requires j < |res|
    ensures Merge(acc, res[..j + 1]) == MergeOne(Merge(acc, res[..j]), res[j].0, res[j].1)
  {
    assert res[..j + 1][..j] == res[..j];
  }

  /** The body of `for m in res`: concatenate onto `dfs[m]` when present, else store. */
  method MergeStep(dfs: Dfs, m: string, t: Table) returns (r: Dfs)
    ensures r == MergeOne(dfs, m, t)
  {
    var found := Lookup(dfs, m);
    if found.Ok? {
      r := Put(dfs, m, Concat(found.value, t));
    } else {
      r := Put(dfs, m, t);
    }
  }

  /** The leaf: cfgids, then one table per measure. */
  method ReadLeaf(st: Store, q: Query) returns (r: Result<Dfs>)
    requires ResultsLeafReady(q)
    ensures r == ResultsLeaf(st, q)
  {
    var dataset, regid := q.dataset.s, LeafRegid(q);
    var cfgids := ReadCfgids(st, dataset, regid, q.cfgid);
    if cfgids.Err? {
      return Err(cfgids.error);
    }
    var ms := MeasureList(q.measure);
    ghost var read := MeasureReader(st, dataset, regid, cfgids.value);
    var dfs: Dfs := [];
    var i := 0;
    while i < |ms|
      invariant 0 <= i <= |ms|
      invariant MeasureTables(read, ms, i) == Ok(dfs)
    {
      var df := ReadMeasure(st, dataset, regid, cfgids.value, ms[i]);
      assert df == read(ms[i]);
      if df.Err? {
        MeasureTablesFailureStays(read, ms, i + 1, |ms|);
        return Err(df.error);
      }
      dfs := Put(dfs, ms[i], df.value);
      i := i + 1;
    }
    r := Ok(dfs);
  }

  lemma {:induction false} MeasureTablesFailureStays<V>(read: string -> Result<V>, ms: seq<string>, n: nat, k: nat)
    requires n <= k <= |ms| && MeasureTables(read, ms, n).Err?
    ensures MeasureTables(read, ms, k) == MeasureTables(read, ms, n)
    decreases k - n
  {
    if n < k {
      MeasureTablesFailureStays(read, ms, n, k - 1);
    }
  }

  /** The cfgid branches of the leaf. */
  method ReadCfgids(st: Store, dataset: string, regid: string, cfgid: CfgSel) returns (r: Result<CfgSel>)
    requires dataset != "" && regid != ""
    ensures r == Cfgids(st, dataset, regid, cfgid)
  {
    if regid == "affine" {
      return Ok(CfgMany([]));
    }
    match cfgid
    case CfgDict(es) =>
      r := Lookup(es, regid);
      if r.Ok? && r.value.CfgDict? {
        r := Lookup(r.value.entries, dataset);
      }
    case CfgMany(_) =>
      r := Ok(cfgid);
    case CfgOne(id) =>
      r := Ok(CfgMany([id]));
    case NoCfg =>
      var params := Read(ParamsReader, st, ParamsQuery(dataset, regid));
      if params.Err? {
        return Err(params.error);
      }
      if "cfgid" !in params.value.columns {
        return Err(MissingColumn("cfgid"));
      }
      var ids := CollectCfgids(st, dataset, regid, params.value.rows);
      r := if ids.Err? then Err(ids.error) else Ok(CfgMany(ids.value));
  }

  /** `for cfgid in params.cfgid: if isdir(...): cfgids.append(cfgid)`. */
  method CollectCfgids(st: Store, dataset: string, regid: string, rows: seq<Row>) returns (r: Result<seq<Cfgid>>)
    ensures r == ExistingCfgids(st, dataset, regid, rows, |rows|)
  {
    var ids: seq<Cfgid> := [];
    var i := 0;
    while i < |rows|
      invariant 0 <= i <= |rows|
      invariant ExistingCfgids(st, dataset, regid, rows, i) == Ok(ids)
    {
      ExistingCfgidsNext(st, dataset, regid, rows, i, ids);
      var c := RowCfgid(rows[i]);
      var dir := CsvDir(dataset, Some(regid), Some(c));
      if dir.Err? {
        ExistingCfgidsFailureStays(st, dataset, regid, rows, i + 1, |rows|);
        return Err(dir.error);
      }
      if IsDir(st, dir.value) {
        ids := ids + [c];
      }
      i := i + 1;
    }
    r := Ok(ids);
  }

  /** One more row: its cfgid is kept when its directory exists. */
  lemma ExistingCfgidsNext(st: Store, dataset: string, regid: string, rows: seq<Row>, n: nat, ids: seq<Cfgid>)
    requires n < |rows| && ExistingCfgids(st, dataset, regid, rows, n) == Ok(ids)
    ensures var c := RowCfgid(rows[n]);
      var dir := CsvDir(dataset, Some(regid), Some(c));
      ExistingCfgids(st, dataset, regid, rows, n + 1) ==
        if dir.Err? then Err(dir.error) else Ok(if IsDir(st, dir.value) then ids + [c] else ids)
  {
  }

  lemma {:induction false} ExistingCfgidsFailureStays(st: Store, dataset: string, regid: string, rows: seq<Row>, n: nat, k: nat)
    requires n <= k <= |rows| && ExistingCfgids(st, dataset, regid, rows, n).Err?
    ensures ExistingCfgids(st, dataset, regid, rows, k) == ExistingCfgids(st, dataset, regid, rows, n)
    decreases k - n
  {
    if n < k {
      ExistingCfgidsFailureStays(st, dataset, regid, rows, n, k - 1);
    }
  }

  /** One measure: the read, then its post-processing. */
  method ReadMeasure(st: Store, dataset: string, regid: string, cfgids: CfgSel, m: string) returns (r: Result<Table>)
    ensures r == MeasureTable(st, dataset, regid, cfgids, m)
  {
    var q := LeafQuery(dataset, regid, cfgids);
    var df: Result<Table>;
    if m == "vox" {
      df := Read(AverageReader, st, q);
    } else if m == "jac" {
      df := Read(MeasurementsReader, st, q.(measure := One("logjac")));
      if df.Ok? {
        df := Ok(WithPctexcl(st, df.value));
      }
    } else {
      df := Read(MeasurementsReader, st, q.(measure := One(m)));
      if df.Ok? && m == "dsc" {
        df := OverlapLong(df.value);
      }
    }
    r := if df.Err? then Err(df.error) else Ok(DropSelfPairs(df.value));
  }
}
