/**
 * The recursion shared by `get_params`, `read_average_measures` and
 * `read_measurements`. One call checks its arguments, then expands the first
 * selector that is a list or dictionary, in the fixed order measure, dataset,
 * regid dictionary, regid, toolkit, command, version, cfgid, tgtid, and
 * concatenates the sub-query results in order; when every selector is a
 * scalar it reads one leaf fragment.
 */
module Resolver {
  import opened Wrappers
  import opened Tables
  import opened Selectors
  import opened Storage
  import opened Naming
  import opened Identity
  import opened Loader

  /** Which of the three query functions is running. */
  datatype Reader = ParamsReader | AverageReader | MeasurementsReader

  /** What one call does before it recurses: raise, expand one selector, or read a leaf. */
  datatype Step = Fail(fault: Fault) | Expand(subs: seq<Query>) | Leaf(q: Query)

  datatype Dim = MeasureDim | DatasetDim | RegidDim | ToolkitDim | CommandDim | VersionDim | TgtidDim

  /** The query with one selector replaced by a single value. */
  function With(q: Query, d: Dim, x: string): Query
  {
    match d
    case MeasureDim => q.(measure := One(x))
    case DatasetDim => q.(dataset := One(x))
    case RegidDim => q.(regid := One(x))
    case ToolkitDim => q.(toolkit := One(x))
    case CommandDim => q.(command := One(x))
    case VersionDim => q.(version := One(x))
    case TgtidDim => q.(tgtid := One(x))
  }

  /** The sub-queries of `for arg in xs`, in order. */
  function Along(q: Query, d: Dim, xs: seq<string>): (r: seq<Query>)
    ensures |r| == |xs| && forall i :: 0 <= i < |xs| ==> r[i] == With(q, d, xs[i])
  {
    seq(|xs|, i requires 0 <= i < |xs| => With(q, d, xs[i]))
  }

  /** The sub-queries of `for arg in cfgid`, in order. */
  function AlongCfgids(q: Query, ids: seq<Cfgid>): (r: seq<Query>)
    ensures |r| == |ids| && forall i :: 0 <= i < |ids| ==> r[i] == q.(cfgid := CfgOne(ids[i]))
  {
    seq(|ids|, i requires 0 <= i < |ids| => q.(cfgid := CfgOne(ids[i])))
  }

  /** Every sub-query is closer to a leaf than the query it came from. */
  predicate Lowers(q: Query, subs: seq<Query>)
  {
    forall i :: 0 <= i < |subs| ==> Weight(subs[i]) < Weight(q)
  }

  /** The selector a dimension names. */
  function DimSel(q: Query, d: Dim): Sel
  {
    match d
    case MeasureDim => q.measure
    case DatasetDim => q.dataset
    case RegidDim => q.regid
    case ToolkitDim => q.toolkit
    case CommandDim => q.command
    case VersionDim => q.version
    case TgtidDim => q.tgtid
  }

  /**
   * Expanding a list or dictionary lowers the weight; so does replacing a
   * falsy target by non-empty target names.
   */
  lemma AlongLowers(q: Query, d: Dim, xs: seq<string>)
    requires d != TgtidDim ==> IsIterable(DimSel(q, d))
    requires d == TgtidDim ==> (IsIterable(q.tgtid) && Truthy(q.tgtid)) || (!Truthy(q.tgtid) && "" !in xs)
    ensures Lowers(q, Along(q, d, xs))
  {
    var subs := Along(q, d, xs);
    forall i | 0 <= i < |subs| ensures Weight(subs[i]) < Weight(q) {
      assert subs[i] == With(q, d, xs[i]);
      assert xs[i] in xs;
    }
  }

  /** A query that weighs no more inherits the bound. */
  lemma LowersFrom(q: Query, q1: Query, subs: seq<Query>)
    requires Weight(q1) <= Weight(q) && Lowers(q1, subs)
    ensures Lowers(q, subs)
  {
  }

  /** The toolkit sub-queries of a flattened regid dictionary weigh less than the dictionary query. */
  lemma FlattenedLowers(q: Query)
    requires q.regid.Dict?
    ensures Lowers(q, Along(Flattened(q), ToolkitDim, Keys(q.regid.entries)))
  {
    var flat := Flattened(q);
    var subs := Along(flat, ToolkitDim, Keys(q.regid.entries));
    forall i | 0 <= i < |subs| ensures Weight(subs[i]) < Weight(q) {
      var sub := subs[i];
      assert sub == flat.(toolkit := One(Keys(q.regid.entries)[i]));
      assert Rank(q.regid) == 1 && Rank(sub.regid) == 0 && Rank(sub.toolkit) == 0;
      assert sub.measure == q.measure && sub.dataset == q.dataset && sub.cfgid == q.cfgid && sub.tgtid == q.tgtid;
    }
  }

  // ---------------------------------------------------------------------------
  // One call

  /** The ValueErrors raised before anything else. */
  function Check(reader: Reader, q: Query): (r: Option<Fault>)
    ensures r.None? <==> (reader == MeasurementsReader ==> Truthy(q.measure)) && Truthy(q.dataset) &&
                         (Truthy(q.regid) || Truthy(q.toolkit))
  {
    if reader == MeasurementsReader && !Truthy(q.measure) then Some(MissingMeasure)
    else if !Truthy(q.dataset) then Some(MissingDataset)
    else if !Truthy(q.regid) && !Truthy(q.toolkit) then Some(MissingRegidOrToolkit)
    else None
  }

  /** The leaf a reader accepts: all selectors scalar, and a target (and measure) where the reader needs one. */
  predicate LeafReady(reader: Reader, q: Query)
  {
    IsLeaf(q) && (reader != ParamsReader ==> IsTargetLeaf(q)) && (reader == MeasurementsReader ==> q.measure.One?)
  }

  /** The arguments once dataset, regid and toolkit are scalars. */
  predicate Registered(reader: Reader, q: Query)
  {
    (reader == MeasurementsReader ==> q.measure.One? && q.measure.s != "") && q.dataset.One? && q.dataset.s != "" &&
    !IsIterable(q.regid) && !IsIterable(q.toolkit) && (Truthy(q.regid) || Truthy(q.toolkit))
  }

  /** One call: the argument checks, then the first non-scalar selector. */
  function Peel(reader: Reader, st: Store, q: Query): (r: Step)
    ensures Check(reader, q).Some? ==> r == Fail(Check(reader, q).value)
    ensures r.Expand? ==> Lowers(q, r.subs)
    ensures r.Leaf? ==> LeafReady(reader, r.q)
  {
    match Check(reader, q)
    case Some(e) => Fail(e)
    case None =>
      if reader == MeasurementsReader && IsIterable(q.measure) then
        AlongLowers(q, MeasureDim, Items(q.measure));
        Expand(Along(q, MeasureDim, Items(q.measure)))
      else if IsIterable(q.dataset) then
        AlongLowers(q, DatasetDim, Items(q.dataset));
        Expand(Along(q, DatasetDim, Items(q.dataset)))
      else if q.regid.Dict? then
        FlattenedLowers(q);
        Expand(Along(Flattened(q), ToolkitDim, Keys(q.regid.entries)))
      else if IsIterable(q.regid) then
        AlongLowers(q, RegidDim, Items(q.regid));
        Expand(Along(q, RegidDim, Items(q.regid)))
      else if IsIterable(q.toolkit) then
        AlongLowers(q, ToolkitDim, Items(q.toolkit));
        Expand(Along(q, ToolkitDim, Items(q.toolkit)))
      else CommandStage(reader, st, q)
  }

  /** `command = command[toolkit]` when command is a dictionary; a None toolkit is a missing key. */
  function CommandSel(q: Query): (r: Result<Sel>)
    requires !IsIterable(q.toolkit)
    ensures !q.command.Dict? ==> r == Ok(q.command)
    ensures q.command.Dict? && q.toolkit.One? ==> (r.Err? <==> q.toolkit.s !in Keys(q.command.entries))
    ensures q.command.Dict? && !q.toolkit.One? ==> r == Err(NoneKey)
  {
    if !q.command.Dict? then Ok(q.command)
    else if q.toolkit.One? then Lookup(q.command.entries, q.toolkit.s)
    else Err(NoneKey)
  }

  /**
   * `version = version[get_regid(toolkit, command)]` when version is a
   * dictionary; with a None toolkit the key is None, or a TypeError when a
   * command is appended to it.
   */
  function VersionSel(q: Query): (r: Result<Sel>)
    requires !IsIterable(q.toolkit) && !IsIterable(q.command)
    ensures !q.version.Dict? ==> r == Ok(q.version)
    ensures q.version.Dict? && q.toolkit.One? ==>
      (r.Err? <==> GetRegid(q.toolkit.s, OptionOf(q.command), None) !in Keys(q.version.entries))
    ensures q.version.Dict? && !q.toolkit.One? ==> r.Err?
  {
    if !q.version.Dict? then Ok(q.version)
    else if q.toolkit.One? then Lookup(q.version.entries, GetRegid(q.toolkit.s, OptionOf(q.command), None))
    else if Given(OptionOf(q.command)) then Err(NoneOperand)
    else Err(NoneKey)
  }

  function CommandStage(reader: Reader, st: Store, q: Query): (r: Step)
    requires Registered(reader, q)
    ensures r.Expand? ==> Lowers(q, r.subs)
    ensures r.Leaf? ==> LeafReady(reader, r.q)
  {
    match CommandSel(q)
    case Err(e) => Fail(e)
    case Ok(c) =>
      var q1 := q.(command := c);
      assert Weight(q1) <= Weight(q);
      if IsIterable(c) then
        AlongLowers(q1, CommandDim, Items(c));
        LowersFrom(q, q1, Along(q1, CommandDim, Items(c)));
        Expand(Along(q1, CommandDim, Items(c)))
      else
        var r := VersionStage(reader, st, q1);
        if r.Expand? then LowersFrom(q, q1, r.subs); r else r
  }

  function VersionStage(reader: Reader, st: Store, q: Query): (r: Step)
    requires Registered(reader, q) && !IsIterable(q.command)
    ensures r.Expand? ==> Lowers(q, r.subs)
    ensures r.Leaf? ==> LeafReady(reader, r.q)
  {
    match VersionSel(q)
    case Err(e) => Fail(e)
    case Ok(v) =>
      var q1 := q.(version := v);
      assert Weight(q1) <= Weight(q);
      if IsIterable(v) then
        AlongLowers(q1, VersionDim, Items(v));
        LowersFrom(q, q1, Along(q1, VersionDim, Items(v)));
        Expand(Along(q1, VersionDim, Items(v)))
      else
        var r := CfgidStage(reader, st, q1);
        if r.Expand? then LowersFrom(q, q1, r.subs); r else r
  }

  /**
   * `get_params` reads its leaf here. The per-target readers expand a cfgid
   * list; `read_measurements` takes an empty one for None, while in
   * `read_average_measures` it expands to nothing.
   */
  function CfgidStage(reader: Reader, st: Store, q: Query): (r: Step)
    requires Registered(reader, q) && IsLeaf(q)
    ensures r.Expand? ==> Lowers(q, r.subs)
    ensures r.Leaf? ==> LeafReady(reader, r.q)
  {
    if reader == ParamsReader then Leaf(q)
    else if CfgIsIterable(q.cfgid) then
      if reader == MeasurementsReader && |CfgItems(q.cfgid)| == 0 then
        var q1 := q.(cfgid := NoCfg);
        assert Weight(q1) < Weight(q);
        var r := TargetStage(reader, st, q1);
        if r.Expand? then LowersFrom(q, q1, r.subs); r else r
      else Expand(AlongCfgids(q, CfgItems(q.cfgid)))
    else TargetStage(reader, st, q)
  }

  /** A falsy tgtid is replaced by the targets listed in the result directory. */
  function TargetStage(reader: Reader, st: Store, q: Query): (r: Step)
    requires Registered(reader, q) && IsLeaf(q) && reader != ParamsReader && !CfgIsIterable(q.cfgid)
    ensures r.Expand? ==> Lowers(q, r.subs)
    ensures r.Leaf? ==> LeafReady(reader, r.q)
  {
    if !Truthy(q.tgtid) then
      match Tgtids(st, q.dataset.s, OptionOf(q.regid), CfgOption(q.cfgid))
      case Err(e) => Fail(e)
      case Ok(ts) =>
        AlongLowers(q, TgtidDim, ts);
        Expand(Along(q, TgtidDim, ts))
    else if IsIterable(q.tgtid) then
      AlongLowers(q, TgtidDim, Items(q.tgtid));
      Expand(Along(q, TgtidDim, Items(q.tgtid)))
    else Leaf(q)
  }

  // ---------------------------------------------------------------------------
  // The whole recursion

  function LeafTable(reader: Reader, st: Store, q: Query): (r: Result<Table>)
    requires LeafReady(reader, q)
    ensures r.Ok? ==>
      r.value.columns == [] || (|r.value.columns| >= 5 && r.value.columns[..5] == IdentityColumns)
  {
    match reader
    case ParamsReader => ParamsLeaf(st, q)
    case AverageReader => AverageLeaf(st, q)
    case MeasurementsReader => MeasurementLeaf(st, q)
  }

  /**
   * The table a query function returns, or the exception it raises. The
   * argument checks come first, before any expansion and any file access.
   */
  function Resolved(reader: Reader, st: Store, q: Query): (r: Result<Table>)
    ensures reader == MeasurementsReader && !Truthy(q.measure) ==> r == Err(MissingMeasure)
    ensures (reader == MeasurementsReader ==> Truthy(q.measure)) && !Truthy(q.dataset) ==> r == Err(MissingDataset)
    ensures ((reader == MeasurementsReader ==> Truthy(q.measure)) && Truthy(q.dataset) &&
             !Truthy(q.regid) && !Truthy(q.toolkit)) ==> r == Err(MissingRegidOrToolkit)
    decreases Weight(q)
  {
    match Peel(reader, st, q)
    case Fail(e) => Err(e)
    case Leaf(l) => LeafTable(reader, st, l)
    case Expand(subs) => ConcatAll(SubResults(reader, st, q, subs))
  }

  /** The sub-query results of one expansion, in order. */
  function SubResults(reader: Reader, st: Store, q: Query, subs: seq<Query>): (rs: seq<Result<Table>>)
    requires Lowers(q, subs)
    ensures |rs| == |subs| && forall i :: 0 <= i < |subs| ==> rs[i] == Resolved(reader, st, subs[i])
    decreases Weight(q), 0
  {
    seq(|subs|, i requires 0 <= i < |subs| => Resolved(reader, st, subs[i]))
  }

  /**
   * `get_params`, `read_average_measures` and `read_measurements`: the loops
   * `df = pd.concat([df, f(arg)])` over the sub-queries, the first exception
   * ending the call.
   */
  method Read(reader: Reader, st: Store, q: Query) returns (r: Result<Table>)
    ensures r == Resolved(reader, st, q)
    decreases Weight(q), 1
  {
    match Peel(reader, st, q)
    case Fail(e) =>
      r := Err(e);
    case Leaf(l) =>
      r := LeafTable(reader, st, l);
    case Expand(subs) =>
      r := ReadAll(reader, st, q, subs);
  }

  /** The accumulation loop: after `i` sub-queries, `df` is the concatenation of their results. */
  method ReadAll(reader: Reader, st: Store, q: Query, subs: seq<Query>) returns (r: Result<Table>)
    requires Lowers(q, subs)
    ensures r == ConcatAll(SubResults(reader, st, q, subs))
    decreases Weight(q), 0
  {
    ghost var rs := SubResults(reader, st, q, subs);
    var df := Empty;
    var i := 0;
    while i < |subs|
      invariant 0 <= i <= |subs|
      invariant ConcatPrefix(rs, i) == Ok(df)
    {
      var sub := Read(reader, st, subs[i]);
      assert sub == rs[i];
      if sub.Err? {
        assert ConcatPrefix(rs, i + 1) == sub;
        ConcatPrefixFailureStays(rs, i + 1, |subs|);
        return sub;
      }
      df := Concat(df, sub.value);
      assert ConcatPrefix(rs, i + 1) == Ok(df);
      i := i + 1;
    }
    r := Ok(df);
  }

  // ---------------------------------------------------------------------------
  // Properties of the recursion

  /** Every non-empty result starts with the identity columns, however many fragments it joins. */
  lemma {:induction false} ResolvedColumns(reader: Reader, st: Store, q: Query)
    ensures var r := Resolved(reader, st, q);
      r.Ok? ==> r.value.columns == [] || (|r.value.columns| >= 5 && r.value.columns[..5] == IdentityColumns)
    decreases Weight(q)
  {
    match Peel(reader, st, q)
    case Fail(_) =>
    case Leaf(_) =>
    case Expand(subs) =>
      var rs := SubResults(reader, st, q, subs);
      forall i | 0 <= i < |rs| && rs[i].Ok?
        ensures rs[i].value.columns == [] ||
          (|IdentityColumns| <= |rs[i].value.columns| && rs[i].value.columns[..|IdentityColumns|] == IdentityColumns)
      {
        ResolvedColumns(reader, st, subs[i]);
      }
      assert Distinct(IdentityColumns);
      ConcatPrefixKeepsLead(rs, |rs|, IdentityColumns);
  }

  /** An expansion none of whose sub-queries fails yields their rows, one after the other. */
  lemma ExpansionRows(reader: Reader, st: Store, q: Query, subs: seq<Query>)
    requires Peel(reader, st, q) == Expand(subs)
    requires forall i :: 0 <= i < |subs| ==> Resolved(reader, st, subs[i]).Ok?
    ensures Resolved(reader, st, q).Ok?
    ensures Resolved(reader, st, q).value.rows == AllRows(Values(SubResults(reader, st, q, subs)))
  {
    ExpandedIsConcat(reader, st, q, subs);
    ConcatAllOutcome(SubResults(reader, st, q, subs));
  }

  /** An expansion raises the failure of its first failing sub-query. */
  lemma ExpansionFirstFailure(reader: Reader, st: Store, q: Query, subs: seq<Query>, i: nat)
    requires Peel(reader, st, q) == Expand(subs)
    requires i < |subs| && Resolved(reader, st, subs[i]).Err?
    requires forall j :: 0 <= j < i ==> Resolved(reader, st, subs[j]).Ok?
    ensures Resolved(reader, st, q) == Resolved(reader, st, subs[i])
  {
    var rs := SubResults(reader, st, q, subs);
    ExpandedIsConcat(reader, st, q, subs);
    assert rs[..|rs|] == rs;
    ConcatPrefixFirstFailure(rs, |rs|, i);
  }

  /** An expanded query's result is the concatenation of its sub-results. */
  lemma ExpandedIsConcat(reader: Reader, st: Store, q: Query, subs: seq<Query>)
    requires Peel(reader, st, q) == Expand(subs)
    ensures Resolved(reader, st, q) == ConcatAll(SubResults(reader, st, q, subs))
  {
  }

  /** When the first sub-query fails, the whole query fails with it. */
  lemma FirstFails(reader: Reader, st: Store, q: Query, subs: seq<Query>)
    requires Peel(reader, st, q) == Expand(subs) && subs != [] && Resolved(reader, st, subs[0]).Err?
    ensures Resolved(reader, st, q) == Resolved(reader, st, subs[0])
  {
    ExpansionFirstFailure(reader, st, q, subs, 0);
  }

  /**
   * A list of datasets is expanded before anything else (after the measure
   * list of `read_measurements`), one sub-query per dataset in list order,
   * whatever the other selectors hold.
   */
  lemma DatasetsFirst(reader: Reader, st: Store, q: Query)
    requires Check(reader, q).None? && IsIterable(q.dataset)
    requires reader == MeasurementsReader ==> !IsIterable(q.measure)
    ensures Peel(reader, st, q) == Expand(Along(q, DatasetDim, Items(q.dataset)))
    ensures forall i :: 0 <= i < |Items(q.dataset)| ==>
      Peel(reader, st, q).subs[i] == q.(dataset := One(Items(q.dataset)[i]))
  {
  }

  /**
   * A regid dictionary {toolkit: {command: version}} is the toolkit list of its
   * keys; the sub-query of toolkit `es[i].0` finds its own entry's commands.
   */
  lemma RegidMapToolkits(reader: Reader, st: Store, q: Query, i: nat)
    requires Check(reader, q).None? && q.regid.Dict? && !IsIterable(q.dataset)
    requires reader == MeasurementsReader ==> !IsIterable(q.measure)
    requires i < |q.regid.entries|
    requires forall j :: i < j < |q.regid.entries| ==> q.regid.entries[j].0 != q.regid.entries[i].0
    ensures Peel(reader, st, q).Expand? && |Peel(reader, st, q).subs| == |q.regid.entries|
    ensures var sub := Peel(reader, st, q).subs[i];
      sub.regid == Absent && sub.toolkit == One(q.regid.entries[i].0) &&
      CommandSel(sub) == Ok(CommandOf(q.regid.entries[i].1))
  {
    RegidMapPeel(reader, st, q);
    ToolkitSubQuery(q, i);
  }

  /** The toolkit sub-query of entry `i` of a regid dictionary. */
  lemma ToolkitSubQuery(q: Query, i: nat)
    requires q.regid.Dict? && i < |q.regid.entries|
    requires forall j :: i < j < |q.regid.entries| ==> q.regid.entries[j].0 != q.regid.entries[i].0
    ensures |Along(Flattened(q), ToolkitDim, Keys(q.regid.entries))| == |q.regid.entries|
    ensures var sub := Flattened(q).(toolkit := One(q.regid.entries[i].0));
      Along(Flattened(q), ToolkitDim, Keys(q.regid.entries))[i] == sub &&
      CommandSel(sub) == Ok(CommandOf(q.regid.entries[i].1))
  {
    var es := q.regid.entries;
    var flat := Flattened(q);
    var subs := Along(flat, ToolkitDim, Keys(es));
    assert subs[i] == flat.(toolkit := One(es[i].0));
    assert subs[i].command == flat.command;
    FlattenedCommand(q, i);
  }

  /**
   * Below toolkit `tk`, the version dictionary answers for `tk-cmd` with the
   * value of the last entry that set it.
   */
  lemma RegidMapVersions(q: Query, tk: string, cmd: string)
    requires q.regid.Dict?
    ensures var sub := Flattened(q).(toolkit := One(tk), command := One(cmd));
      VersionSel(sub) == Lookup(Flattened(q).version.entries, GetRegid(tk, Some(cmd), None))
  {
  }

  /**
   * When no value of a regid dictionary is itself a dictionary (a map from
   * toolkit to command list), the version dictionary stays empty and the
   * first command raises a KeyError.
   */
  lemma CommandListMapFails(reader: Reader, st: Store, q: Query, cs: seq<string>)
    requires Check(reader, q).None? && q.regid.Dict? && q.dataset.One?
    requires reader == MeasurementsReader ==> !IsIterable(q.measure)
    requires q.regid.entries != [] && q.regid.entries[0].1 == Many(cs) && cs != [] && q.regid.entries[0].0 != ""
    requires forall j :: 0 <= j < |q.regid.entries| ==> !q.regid.entries[j].1.Dict?
    requires forall j :: 0 < j < |q.regid.entries| ==> q.regid.entries[j].0 != q.regid.entries[0].0
    ensures Resolved(reader, st, q) == Err(NoSuchKey(GetRegid(q.regid.entries[0].0, Some(cs[0]), None)))
  {
    RegidMapPeel(reader, st, q);
    FirstToolkitEntry(reader, q, cs);
    FirstToolkitFails(reader, st, q, Along(Flattened(q), ToolkitDim, Keys(q.regid.entries)), cs);
  }

  /** The first toolkit sub-query of such a dictionary: its command list, and no versions. */
  lemma FirstToolkitEntry(reader: Reader, q: Query, cs: seq<string>)
    requires Check(reader, q).None? && q.regid.Dict? && q.dataset.One?
    requires reader == MeasurementsReader ==> !IsIterable(q.measure)
    requires q.regid.entries != [] && q.regid.entries[0].1 == Many(cs) && cs != [] && q.regid.entries[0].0 != ""
    requires forall j :: 0 <= j < |q.regid.entries| ==> !q.regid.entries[j].1.Dict?
    requires forall j :: 0 < j < |q.regid.entries| ==> q.regid.entries[j].0 != q.regid.entries[0].0
    ensures |Along(Flattened(q), ToolkitDim, Keys(q.regid.entries))| == |q.regid.entries|
    ensures var sub := Flattened(q).(toolkit := One(q.regid.entries[0].0));
      Along(Flattened(q), ToolkitDim, Keys(q.regid.entries))[0] == sub &&
      Registered(reader, sub) && sub.version == Dict([]) && CommandSel(sub) == Ok(Many(cs))
  {
    FlatVersionEmpty(q);
    ToolkitSubQuery(q, 0);
    RegisteredSub(reader, q);
  }

  /** Without inner dictionaries the flattening assigns no version. */
  lemma FlatVersionEmpty(q: Query)
    requires q.regid.Dict?
    requires forall j :: 0 <= j < |q.regid.entries| ==> !q.regid.entries[j].1.Dict?
    ensures Flattened(q).version == Dict([])
  {
    NoVersionPairs(q.regid.entries);
    FlatVersionsAll(q.regid.entries);
  }

  /** The first toolkit sub-query passes the argument checks with a scalar regid and toolkit. */
  lemma RegisteredSub(reader: Reader, q: Query)
    requires Check(reader, q).None? && q.regid.Dict? && q.dataset.One?
    requires reader == MeasurementsReader ==> !IsIterable(q.measure)
    requires q.regid.entries != [] && q.regid.entries[0].0 != ""
    ensures Registered(reader, Flattened(q).(toolkit := One(q.regid.entries[0].0)))
  {
  }

  lemma FirstToolkitFails(reader: Reader, st: Store, q: Query, subs: seq<Query>, cs: seq<string>)
    requires Peel(reader, st, q) == Expand(subs) && subs != []
    requires Registered(reader, subs[0]) && subs[0].toolkit.One? && subs[0].toolkit.s != ""
    requires subs[0].version == Dict([]) && CommandSel(subs[0]) == Ok(Many(cs)) && cs != []
    ensures Resolved(reader, st, q) == Err(NoSuchKey(GetRegid(subs[0].toolkit.s, Some(cs[0]), None)))
  {
    CommandListFails(reader, st, subs[0], cs);
    FirstFails(reader, st, q, subs);
  }

  /** A regid dictionary expands into one sub-query per toolkit key of the flattened query. */
  lemma RegidMapPeel(reader: Reader, st: Store, q: Query)
    requires Check(reader, q).None? && q.regid.Dict? && !IsIterable(q.dataset)
    requires reader == MeasurementsReader ==> !IsIterable(q.measure)
    ensures Peel(reader, st, q) == Expand(Along(Flattened(q), ToolkitDim, Keys(q.regid.entries)))
  {
  }

  /** A toolkit whose command list meets an empty version dictionary: the first command's lookup fails. */
  lemma CommandListFails(reader: Reader, st: Store, p: Query, cs: seq<string>)
    requires Registered(reader, p) && p.toolkit.One? && p.toolkit.s != "" && p.version == Dict([])
    requires CommandSel(p) == Ok(Many(cs)) && cs != []
    ensures Resolved(reader, st, p) == Err(NoSuchKey(GetRegid(p.toolkit.s, Some(cs[0]), None)))
  {
    var leaf := p.(command := One(cs[0]));
    var subs := Along(p.(command := Many(cs)), CommandDim, cs);
    assert Peel(reader, st, p) == CommandStage(reader, st, p);
    assert Peel(reader, st, p) == Expand(subs);
    assert subs[0] == leaf;
    VersionLookupFails(reader, st, leaf);
    FirstFails(reader, st, p, subs);
  }

  lemma VersionLookupFails(reader: Reader, st: Store, p: Query)
    requires Registered(reader, p) && p.toolkit.One? && p.toolkit.s != "" && p.command.One? && p.version == Dict([])
    ensures Resolved(reader, st, p) == Err(NoSuchKey(GetRegid(p.toolkit.s, OptionOf(p.command), None)))
  {
    assert Peel(reader, st, p) == CommandStage(reader, st, p);
    assert CommandStage(reader, st, p) == VersionStage(reader, st, p);
  }

  /** Entries whose values are not dictionaries contribute no version keys. */
  lemma {:induction false} NoVersionPairs(es: seq<(string, Sel)>)
    requires forall j :: 0 <= j < |es| ==> !es[j].1.Dict?
    ensures VersionPairs(es) == []
  {
    if es != [] {
      NoVersionPairs(es[..|es| - 1]);
    }
  }

  /** An empty cfgid list: `read_measurements` treats it as None. */
  lemma EmptyCfgidMeasurements(st: Store, q: Query)
    requires IsLeaf(q) && q.measure.One? && q.measure.s != ""
    ensures Resolved(MeasurementsReader, st, q.(cfgid := CfgMany([]))) ==
            Resolved(MeasurementsReader, st, q.(cfgid := NoCfg))
  {
    var q0 := q.(cfgid := CfgMany([]));
    var qn := q.(cfgid := NoCfg);
    LeafPeel(MeasurementsReader, st, q0);
    LeafPeel(MeasurementsReader, st, qn);
    assert q0.(cfgid := NoCfg) == qn;
  }

  /** An empty cfgid list: `read_average_measures` loops over nothing and returns an empty table. */
  lemma EmptyCfgidAverage(st: Store, q: Query)
    requires IsLeaf(q)
    ensures Resolved(AverageReader, st, q.(cfgid := CfgMany([]))) == Ok(Empty)
  {
    LeafPeel(AverageReader, st, q.(cfgid := CfgMany([])));
    assert Peel(AverageReader, st, q.(cfgid := CfgMany([]))) == Expand([]);
  }

  /** Without a target, one sub-query per listed target, in sorted order. */
  lemma DefaultTargets(reader: Reader, st: Store, q: Query)
    requires IsLeaf(q) && reader != ParamsReader && !CfgIsIterable(q.cfgid) && !Truthy(q.tgtid)
    requires reader == MeasurementsReader ==> q.measure.One? && q.measure.s != ""
    requires Tgtids(st, q.dataset.s, OptionOf(q.regid), CfgOption(q.cfgid)).Ok?
    ensures var ts := Tgtids(st, q.dataset.s, OptionOf(q.regid), CfgOption(q.cfgid)).value;
      Peel(reader, st, q) == Expand(Along(q, TgtidDim, ts)) && StringUtil.StrictlySorted(ts)
  {
    LeafPeel(reader, st, q);
  }

  /** A query whose selectors are all scalar passes the command and version stages unchanged. */
  lemma LeafPeel(reader: Reader, st: Store, q: Query)
    requires IsLeaf(q) && (reader == MeasurementsReader ==> q.measure.One? && q.measure.s != "")
    ensures Registered(reader, q)
    ensures Peel(reader, st, q) == CfgidStage(reader, st, q)
  {
    assert CommandSel(q) == Ok(q.command) && q.(command := q.command) == q;
    assert VersionSel(q) == Ok(q.version) && q.(version := q.version) == q;
  }
}
