/**
 * `average_overlap` and `average_group_overlap`: the overlap tables of
 * `read_results` are tagged, row by row, with the label group of the row's
 * label, read from the dataset's label taxonomy `etc/dataset/<dataset>.csv`
 * (first column: the label; each column `Label Group: <name>` marks the
 * labels of group `<name>` with `+`). `average_overlap` then keeps the rows
 * whose label belongs to a group; `average_group_overlap` keeps the group
 * name. The averaging over the tagged rows is not part of this model.
 */
module LabelGroups {
  import opened Wrappers
  import opened Tables
  import opened Selectors
  import opened Storage
  import opened Results

  // ---------------------------------------------------------------------------
  // The taxonomy

  const GroupPrefix: string := "Label Group: "

  /** `column.startswith('Label Group: ')`. */
  predicate IsGroupColumn(c: string)
  {
    |GroupPrefix| <= |c| && c[..|GroupPrefix|] == GroupPrefix
  }

  /** `column[13:]`: the group name after the prefix. */
  function GroupName(c: string): (r: string)
    requires IsGroupColumn(c)
    ensures GroupPrefix + r == c
  {
    c[|GroupPrefix|..]
  }

  /** `int(label)` on a table cell. */
  function CellInt(c: Cell): Result<int>
  {
    CfgidInt(CellCfgid(c))
  }

  /** Row `i` marks its label `l` in data column `j` (column 0 is the index). */
  predicate Marks(t: Table, j: int, i: int, l: int)
  {
    1 <= j < |t.columns| && 0 <= i < |t.rows| && IsGroupColumn(t.columns[j]) &&
    Get(t.rows[i], t.columns[j]) == Str("+") && CellInt(Get(t.rows[i], t.columns[0])) == Ok(l)
  }

  /** Row `i` marks data column `j` with a label that is not an integer. */
  predicate BadMark(t: Table, j: int, i: int)
  {
    1 <= j < |t.columns| && 0 <= i < |t.rows| && IsGroupColumn(t.columns[j]) &&
    Get(t.rows[i], t.columns[j]) == Str("+") && CellInt(Get(t.rows[i], t.columns[0])).Err?
  }

  /** `label2group[int(label)] = group` for the marked rows among the first `n` rows of data column `j`. */
  function MarkColumn(t: Table, j: nat, m: map<int, string>, n: nat): (r: Result<map<int, string>>)
    requires 1 <= j < |t.columns| && IsGroupColumn(t.columns[j]) && n <= |t.rows|
  {
    if n == 0 then Ok(m)
    else
      match MarkColumn(t, j, m, n - 1)
      case Err(e) => Err(e)
      case Ok(prev) =>
        if Get(t.rows[n - 1], t.columns[j]) == Str("+") then
          match CellInt(Get(t.rows[n - 1], t.columns[0]))
          case Err(e) => Err(e)
          case Ok(l) => Ok(prev[l := GroupName(t.columns[j])])
        else Ok(prev)
  }

  /** The label-to-group map after the first `k` data columns. */
  function GroupsUpTo(t: Table, k: nat): (r: Result<map<int, string>>)
    requires k < |t.columns|
  {
    if k == 0 then Ok(map[])
    else
      match GroupsUpTo(t, k - 1)
      case Err(e) => Err(e)
      case Ok(prev) =>
        if IsGroupColumn(t.columns[k]) then MarkColumn(t, k, prev, |t.rows|) else Ok(prev)
  }

  /** `label2group`, built from a taxonomy read with `index_col=0`. */
  function Taxonomy(t: Table): (r: Result<map<int, string>>)
  {
    if t.columns == [] then Ok(map[]) else GroupsUpTo(t, |t.columns| - 1)
  }

  /** One column: the labels it marks get its group, the others keep theirs; a bad label raises. */
  lemma {:induction false} MarkColumnEffect(t: Table, j: nat, m: map<int, string>, n: nat)
    requires 1 <= j < |t.columns| && IsGroupColumn(t.columns[j]) && n <= |t.rows|
    ensures MarkColumn(t, j, m, n).Err? <==> exists i :: 0 <= i < n && BadMark(t, j, i)
    ensures MarkColumn(t, j, m, n).Ok? ==> forall l ::
      (l in MarkColumn(t, j, m, n).value <==> l in m || exists i :: 0 <= i < n && Marks(t, j, i, l))
    ensures MarkColumn(t, j, m, n).Ok? ==> forall l :: (exists i :: 0 <= i < n && Marks(t, j, i, l)) ==>
      MarkColumn(t, j, m, n).value[l] == GroupName(t.columns[j])
    ensures MarkColumn(t, j, m, n).Ok? ==> forall l :: l in m && (forall i :: 0 <= i < n ==> !Marks(t, j, i, l)) ==>
      MarkColumn(t, j, m, n).value[l] == m[l]
  {
    if n > 0 {
      MarkColumnEffect(t, j, m, n - 1);
      var prev := MarkColumn(t, j, m, n - 1);
      var c := t.columns[j];
      var row := t.rows[n - 1];
      if prev.Ok? {
        if Get(row, c) == Str("+") && CellInt(Get(row, t.columns[0])).Err? {
          assert BadMark(t, j, n - 1);
        } else {
          assert !BadMark(t, j, n - 1);
          assert forall i :: 0 <= i < n && BadMark(t, j, i) ==> i < n - 1;
          var r := MarkColumn(t, j, m, n).value;
          forall l
            ensures l in r <==> l in m || exists i :: 0 <= i < n && Marks(t, j, i, l)
            ensures (exists i :: 0 <= i < n && Marks(t, j, i, l)) ==> r[l] == GroupName(c)
            ensures l in m && (forall i :: 0 <= i < n ==> !Marks(t, j, i, l)) ==> r[l] == m[l]
          {
            if Marks(t, j, n - 1, l) {
              assert r == prev.value[l := GroupName(c)];
            } else {
              assert forall i :: 0 <= i < n && Marks(t, j, i, l) ==> i < n - 1;
            }
          }
        }
      }
    }
  }

  /**
   * After `k` data columns, a label has a group exactly when some group
   * column marks it, and that group is the one of the last such column; the
   * map cannot be built exactly when some marked label is not an integer.
   */
  lemma {:induction false} GroupsUpToEffect(t: Table, k: nat)
    requires k < |t.columns|
    ensures GroupsUpTo(t, k).Err? <==> exists j, i :: j <= k && BadMark(t, j, i)
    ensures GroupsUpTo(t, k).Ok? ==> forall l ::
      (l in GroupsUpTo(t, k).value <==> exists j, i :: j <= k && Marks(t, j, i, l))
    ensures GroupsUpTo(t, k).Ok? ==> forall j, i, l ::
      j <= k && Marks(t, j, i, l) && (forall j2, i2 :: j < j2 <= k ==> !Marks(t, j2, i2, l)) ==>
      GroupsUpTo(t, k).value[l] == GroupName(t.columns[j])
  {
    GroupsUpToFails(t, k);
    GroupsUpToMembers(t, k);
    GroupsUpToLastWins(t, k);
  }

  lemma {:induction false} GroupsUpToFails(t: Table, k: nat)
    requires k < |t.columns|
    ensures GroupsUpTo(t, k).Err? <==> exists j, i :: j <= k && BadMark(t, j, i)
  {
    if k > 0 {
      GroupsUpToFails(t, k - 1);
      var prev := GroupsUpTo(t, k - 1);
      if prev.Ok? && IsGroupColumn(t.columns[k]) {
        MarkColumnEffect(t, k, prev.value, |t.rows|);
      }
    }
  }

  lemma {:induction false} GroupsUpToMembers(t: Table, k: nat)
    requires k < |t.columns|
    ensures GroupsUpTo(t, k).Ok? ==> forall l ::
      (l in GroupsUpTo(t, k).value <==> exists j, i :: j <= k && Marks(t, j, i, l))
  {
    if k > 0 {
      GroupsUpToMembers(t, k - 1);
      var prev := GroupsUpTo(t, k - 1);
      if prev.Ok? && IsGroupColumn(t.columns[k]) {
        MarkColumnEffect(t, k, prev.value, |t.rows|);
      }
    }
  }

  lemma {:induction false} GroupsUpToLastWins(t: Table, k: nat)
    requires k < |t.columns|
    ensures GroupsUpTo(t, k).Ok? ==> forall j, i, l ::
      j <= k && Marks(t, j, i, l) && (forall j2, i2 :: j < j2 <= k ==> !Marks(t, j2, i2, l)) ==>
      l in GroupsUpTo(t, k).value && GroupsUpTo(t, k).value[l] == GroupName(t.columns[j])
  {
    if k > 0 {
      GroupsUpToLastWins(t, k - 1);
      GroupsUpToMembers(t, k - 1);
      var prev := GroupsUpTo(t, k - 1);
      if prev.Ok? && IsGroupColumn(t.columns[k]) {
        MarkColumnEffect(t, k, prev.value, |t.rows|);
      }
    }
  }

  /** The taxonomy as a whole: membership, the last column wins, and when it raises. */
  lemma TaxonomyEffect(t: Table)
    ensures Taxonomy(t).Err? <==> exists j, i :: BadMark(t, j, i)
    ensures Taxonomy(t).Ok? ==> forall l :: (l in Taxonomy(t).value <==> exists j, i :: Marks(t, j, i, l))
    ensures Taxonomy(t).Ok? ==> forall j, i, l ::
      Marks(t, j, i, l) && (forall j2, i2 :: j < j2 ==> !Marks(t, j2, i2, l)) ==>
      Taxonomy(t).value[l] == GroupName(t.columns[j])
  {
    if t.columns != [] {
      GroupsUpToEffect(t, |t.columns| - 1);
    }
  }

  /** The nested loops that fill `label2group`. */
  method ReadTaxonomy(t: Table) returns (r: Result<map<int, string>>)
    ensures r == Taxonomy(t)
  {
    var groups: map<int, string> := map[];
    if t.columns == [] {
      return Ok(groups);
    }
    var k := 1;
    while k < |t.columns|
      invariant 1 <= k <= |t.columns|
      invariant GroupsUpTo(t, k - 1) == Ok(groups)
    {
      if IsGroupColumn(t.columns[k]) {
        ghost var before := groups;
        var i := 0;
        while i < |t.rows|
          invariant 0 <= i <= |t.rows|
          invariant MarkColumn(t, k, before, i) == Ok(groups)
        {
          if Get(t.rows[i], t.columns[k]) == Str("+") {
            var l := CellInt(Get(t.rows[i], t.columns[0]));
            if l.Err? {
              MarkColumnFailureStays(t, k, before, i + 1, |t.rows|);
              GroupsFailureStays(t, k, |t.columns| - 1);
              return Err(l.error);
            }
            groups := groups[l.value := GroupName(t.columns[k])];
          }
          i := i + 1;
        }
      }
      k := k + 1;
    }
    r := Ok(groups);
  }

  lemma {:induction false} MarkColumnFailureStays(t: Table, j: nat, m: map<int, string>, n: nat, k: nat)
    requires 1 <= j < |t.columns| && IsGroupColumn(t.columns[j]) && n <= k <= |t.rows|
    requires MarkColumn(t, j, m, n).Err?
    ensures MarkColumn(t, j, m, k) == MarkColumn(t, j, m, n)
    decreases k - n
  {
    if n < k {
      MarkColumnFailureStays(t, j, m, n, k - 1);
    }
  }

  lemma {:induction false} GroupsFailureStays(t: Table, n: nat, k: nat)
    requires n <= k < |t.columns| && GroupsUpTo(t, n).Err?
    ensures GroupsUpTo(t, k) == GroupsUpTo(t, n)
    decreases k - n
  {
    if n < k {
      GroupsFailureStays(t, n, k - 1);
    }
  }

  // ---------------------------------------------------------------------------
  // Tagging the rows

  /** `average_overlap` tags with `ingroup`, `average_group_overlap` with `group`. */
  datatype Mode = InGroupMode | GroupMode

  function TagColumn(mode: Mode): string
  {
    if mode == InGroupMode then "ingroup" else "group"
  }

  /** `assign(ingroup=False)` / `assign(group=None)`. */
  function Untagged(mode: Mode): Cell
  {
    if mode == InGroupMode then Bool(false) else Null
  }

  /** The tag of a label: membership, or the group name (None when it has none). */
  function TagOf(mode: Mode, groups: map<int, string>, l: int): (r: Cell)
    ensures mode == InGroupMode ==> (r == Bool(true) <==> l in groups)
    ensures mode == GroupMode && l in groups ==> r == Str(groups[l])
    ensures mode == GroupMode && l !in groups ==> r == Null
  {
    if mode == InGroupMode then Bool(l in groups)
    else if l in groups then Str(groups[l]) else Null
  }

  /** `os.path.join(topdir, 'etc', 'dataset', dataset + '.csv')`, relative to the repository root. */
  function TaxonomyPath(dataset: string): Path
  {
    ["etc", "dataset", dataset + ".csv"]
  }

  /** The first `n` rows, those of `dataset` tagged through `groups`; the first label that is no integer raises. */
  function TagRows(mode: Mode, groups: map<int, string>, rows: seq<Row>, dataset: Cell, n: nat): (r: Result<seq<Row>>)
    requires n <= |rows|
    ensures r.Ok? ==> |r.value| == n
    ensures r.Ok? ==> forall i :: 0 <= i < n && Get(rows[i], "dataset") != dataset ==> r.value[i] == rows[i]
    ensures r.Ok? ==> forall i :: 0 <= i < n && Get(rows[i], "dataset") == dataset ==>
      CellInt(Get(rows[i], "label")).Ok? &&
      r.value[i] == rows[i][TagColumn(mode) := TagOf(mode, groups, CellInt(Get(rows[i], "label")).value)]
    ensures r.Err? <==> exists i :: 0 <= i < n && Get(rows[i], "dataset") == dataset && CellInt(Get(rows[i], "label")).Err?
  {
    if n == 0 then Ok([])
    else
      match TagRows(mode, groups, rows, dataset, n - 1)
      case Err(e) => Err(e)
      case Ok(prev) =>
        var row := rows[n - 1];
        if Get(row, "dataset") != dataset then Ok(prev + [row])
        else
          match CellInt(Get(row, "label"))
          case Err(e) => Err(e)
          case Ok(l) => Ok(prev + [row[TagColumn(mode) := TagOf(mode, groups, l)]])
  }

  /** One pass of `for dataset in datasets`: nothing happens without a taxonomy file. */
  function TagDataset(st: Store, mode: Mode, t: Table, dataset: Cell): (r: Result<Table>)
    ensures r.Ok? ==> r.value.columns == t.columns && |r.value.rows| == |t.rows|
    ensures !dataset.Str? ==> r == Err(NoneOperand)
  {
    if !dataset.Str? then Err(NoneOperand)
    else if !IsFile(st, TaxonomyPath(dataset.s)) then Ok(t)
    else
      match Taxonomy(st.files[TaxonomyPath(dataset.s)])
      case Err(e) => Err(e)
      case Ok(groups) =>
        if "label" !in t.columns then Err(MissingColumn("label"))
        else
          match TagRows(mode, groups, t.rows, dataset, |t.rows|)
          case Err(e) => Err(e)
          case Ok(rows) => Ok(Table(t.columns, rows))
  }

  /** `df.dataset.unique()` of the first `n` rows: each dataset once, in order of first appearance. */
  function Datasets(rows: seq<Row>, n: nat): (r: seq<Cell>)
    requires n <= |rows|
    ensures forall c :: c in r <==> exists i :: 0 <= i < n && Get(rows[i], "dataset") == c
    ensures forall a, b :: 0 <= a < b < |r| ==> r[a] != r[b]
  {
    if n == 0 then []
    else
      var prev := Datasets(rows, n - 1);
      var c := Get(rows[n - 1], "dataset");
      if c in prev then prev else prev + [c]
  }

  /** The loop over the first `k` datasets. */
  function TagAll(st: Store, mode: Mode, t: Table, ds: seq<Cell>, k: nat): (r: Result<Table>)
    requires k <= |ds|
    ensures r.Ok? ==> r.value.columns == t.columns && |r.value.rows| == |t.rows|
  {
    if k == 0 then Ok(t)
    else
      match TagAll(st, mode, t, ds, k - 1)
      case Err(e) => Err(e)
      case Ok(prev) => TagDataset(st, mode, prev, ds[k - 1])
  }

  /** The tag one row ends with, from its own dataset's taxonomy alone. */
  function RowTag(st: Store, mode: Mode, row: Row): Result<Cell>
  {
    var d := Get(row, "dataset");
    if !d.Str? then Err(NoneOperand)
    else if !IsFile(st, TaxonomyPath(d.s)) then Ok(Untagged(mode))
    else
      match Taxonomy(st.files[TaxonomyPath(d.s)])
      case Err(e) => Err(e)
      case Ok(groups) =>
        match CellInt(Get(row, "label"))
        case Err(e) => Err(e)
        case Ok(l) => Ok(TagOf(mode, groups, l))
  }

  /** Tagging for one dataset leaves `dataset` and `label` as they were. */
  lemma TagDatasetKeeps(st: Store, mode: Mode, t: Table, dataset: Cell, i: nat)
    requires TagDataset(st, mode, t, dataset).Ok? && i < |t.rows|
    ensures Get(TagDataset(st, mode, t, dataset).value.rows[i], "dataset") == Get(t.rows[i], "dataset")
    ensures Get(TagDataset(st, mode, t, dataset).value.rows[i], "label") == Get(t.rows[i], "label")
    ensures Get(t.rows[i], "dataset") != dataset ==> TagDataset(st, mode, t, dataset).value.rows[i] == t.rows[i]
    ensures dataset.Str? && !IsFile(st, TaxonomyPath(dataset.s)) ==> TagDataset(st, mode, t, dataset).value.rows[i] == t.rows[i]
    ensures Get(t.rows[i], "dataset") == dataset && dataset.Str? && IsFile(st, TaxonomyPath(dataset.s)) ==>
      RowTag(st, mode, t.rows[i]).Ok? &&
      TagDataset(st, mode, t, dataset).value.rows[i] == t.rows[i][TagColumn(mode) := RowTag(st, mode, t.rows[i]).value]
  {
  }

  /**
   * After the first `k` datasets, a row of one of them carries the tag of its
   * own dataset's taxonomy (or keeps its default when there is no taxonomy),
   * and every other row is unchanged.
   */
  lemma {:induction false} TagAllRow(st: Store, mode: Mode, t: Table, ds: seq<Cell>, k: nat, i: nat)
    requires k <= |ds| && TagAll(st, mode, t, ds, k).Ok? && i < |t.rows|
    requires TagColumn(mode) in t.rows[i] && t.rows[i][TagColumn(mode)] == Untagged(mode)
    ensures Get(TagAll(st, mode, t, ds, k).value.rows[i], "dataset") == Get(t.rows[i], "dataset")
    ensures Get(TagAll(st, mode, t, ds, k).value.rows[i], "label") == Get(t.rows[i], "label")
    ensures Get(t.rows[i], "dataset") !in ds[..k] ==> TagAll(st, mode, t, ds, k).value.rows[i] == t.rows[i]
    ensures Get(t.rows[i], "dataset") in ds[..k] ==>
      RowTag(st, mode, t.rows[i]).Ok? &&
      TagAll(st, mode, t, ds, k).value.rows[i] == t.rows[i][TagColumn(mode) := RowTag(st, mode, t.rows[i]).value]
  {
    if k > 0 {
      TagAllRow(st, mode, t, ds, k - 1, i);
      var prev := TagAll(st, mode, t, ds, k - 1).value;
      TagDatasetKeeps(st, mode, prev, ds[k - 1], i);
      assert ds[..k] == ds[..k - 1] + [ds[k - 1]];
      var row := t.rows[i];
      var d := Get(row, "dataset");
      if d == ds[k - 1] && d !in ds[..k - 1] && !IsFile(st, TaxonomyPath(d.s)) {
        assert row[TagColumn(mode) := Untagged(mode)] == row;
      } else if d == ds[k - 1] && d in ds[..k - 1] {
        var tagged := row[TagColumn(mode) := RowTag(st, mode, row).value];
        assert tagged[TagColumn(mode) := RowTag(st, mode, row).value] == tagged;
      }
    }
  }

  /** Every column `reg_info` selects must be present. */
  function MissingRegInfo(t: Table): (r: Option<string>)
    ensures r.None? <==> (forall c :: c in ["regid", "toolkit", "command", "version"] ==> c in t.columns)
  {
    if "regid" !in t.columns then Some("regid")
    else if "toolkit" !in t.columns then Some("toolkit")
    else if "command" !in t.columns then Some("command")
    else if "version" !in t.columns then Some("version")
    else None
  }

  /** One overlap table, tagged: the default tag, then the loop over its datasets. */
  function Tagged(st: Store, mode: Mode, t: Table): (r: Result<Table>)
    ensures MissingRegInfo(t).Some? ==> r == Err(MissingColumn(MissingRegInfo(t).value))
    ensures r.Ok? ==> TagColumn(mode) in r.value.columns && |r.value.rows| == |t.rows|
  {
    if MissingRegInfo(t).Some? then Err(MissingColumn(MissingRegInfo(t).value))
    else
      var t1 := SetColumn(t, TagColumn(mode), seq(|t.rows|, _ => Untagged(mode)));
      if "dataset" !in t1.columns then Err(MissingColumn("dataset"))
      else
        var ds := Datasets(t1.rows, |t1.rows|);
        TagAll(st, mode, t1, ds, |ds|)
  }

  /** Each row of a tagged table is the input row with the tag of its own dataset's taxonomy. */
  lemma TaggedRows(st: Store, mode: Mode, t: Table, i: nat)
    requires Tagged(st, mode, t).Ok? && i < |t.rows|
    ensures RowTag(st, mode, t.rows[i]).Ok?
    ensures Tagged(st, mode, t).value.rows[i] == t.rows[i][TagColumn(mode) := RowTag(st, mode, t.rows[i]).value]
  {
    var t1 := SetColumn(t, TagColumn(mode), seq(|t.rows|, _ => Untagged(mode)));
    var ds := Datasets(t1.rows, |t1.rows|);
    assert Tagged(st, mode, t) == TagAll(st, mode, t1, ds, |ds|);
    assert t1.rows[i] == t.rows[i][TagColumn(mode) := Untagged(mode)];
    assert Get(t1.rows[i], "dataset") in ds[..|ds|] by {
      assert Get(t1.rows[i], "dataset") in ds;
      assert ds[..|ds|] == ds;
    }
    TagAllRow(st, mode, t1, ds, |ds|, i);
    RetagRow(st, mode, t.rows[i], Untagged(mode), RowTag(st, mode, t1.rows[i]).value);
  }

  /** Overwriting the tag column changes neither the row's tag nor the row tagged afresh. */
  lemma RetagRow(st: Store, mode: Mode, row: Row, x: Cell, y: Cell)
    ensures RowTag(st, mode, row[TagColumn(mode) := x]) == RowTag(st, mode, row)
    ensures row[TagColumn(mode) := x][TagColumn(mode) := y] == row[TagColumn(mode) := y]
  {
    var r1 := row[TagColumn(mode) := x];
    assert Get(r1, "dataset") == Get(row, "dataset");
    assert Get(r1, "label") == Get(row, "label");
  }

  /** A row whose dataset has no taxonomy file keeps `ingroup=False` / `group=None`. */
  lemma NoTaxonomyKeepsDefault(st: Store, mode: Mode, t: Table, i: nat)
    requires Tagged(st, mode, t).Ok? && i < |t.rows|
    requires Get(t.rows[i], "dataset").Str? && !IsFile(st, TaxonomyPath(Get(t.rows[i], "dataset").s))
    ensures Get(Tagged(st, mode, t).value.rows[i], TagColumn(mode)) == Untagged(mode)
  {
    TaggedRows(st, mode, t, i);
  }

  /** `average_group_overlap` tags a row with its label's group in its dataset's taxonomy, or None. */
  lemma GroupTagged(st: Store, t: Table, i: nat)
    requires Tagged(st, GroupMode, t).Ok? && i < |t.rows|
    ensures var d := Get(t.rows[i], "dataset");
      d.Str? && IsFile(st, TaxonomyPath(d.s)) ==>
        Taxonomy(st.files[TaxonomyPath(d.s)]).Ok? && CellInt(Get(t.rows[i], "label")).Ok? &&
        var groups := Taxonomy(st.files[TaxonomyPath(d.s)]).value;
        var l := CellInt(Get(t.rows[i], "label")).value;
        Get(Tagged(st, GroupMode, t).value.rows[i], "group") == if l in groups then Str(groups[l]) else Null
    ensures forall c :: c != "group" ==> Get(Tagged(st, GroupMode, t).value.rows[i], c) == Get(t.rows[i], c)
  {
    TaggedRows(st, GroupMode, t, i);
  }

  /** `df[df.ingroup == True]`. */
  function InGroupRows(rows: seq<Row>): (r: seq<Row>)
    ensures forall row :: row in r <==> row in rows && Get(row, "ingroup") == Bool(true)
    ensures |r| <= |rows|
  {
    if rows == [] then []
    else
      var rest := InGroupRows(rows[1..]);
      assert forall row :: row in rows <==> row == rows[0] || row in rows[1..];
      if Get(rows[0], "ingroup") == Bool(true) then [rows[0]] + rest else rest
  }

  /** The rows `average_overlap` averages: those whose label is in a group of its dataset. */
  function InGroup(st: Store, t: Table): (r: Result<Table>)
    ensures r.Ok? ==> "ingroup" !in r.value.columns
    ensures MissingRegInfo(t).Some? ==> r == Err(MissingColumn(MissingRegInfo(t).value))
  {
    match Tagged(st, InGroupMode, t)
    case Err(e) => Err(e)
    case Ok(tagged) => Ok(DropColumn(Table(tagged.columns, InGroupRows(tagged.rows)), "ingroup"))
  }

  /**
   * A row survives the in-group filter exactly when its label is an integer
   * that its dataset's taxonomy assigns to some group.
   */
  lemma InGroupKeeps(st: Store, t: Table, i: nat)
    requires Tagged(st, InGroupMode, t).Ok? && i < |t.rows|
    ensures var tagged := Tagged(st, InGroupMode, t).value;
      (tagged.rows[i] in InGroupRows(tagged.rows) <==> RowTag(st, InGroupMode, t.rows[i]) == Ok(Bool(true)))
    ensures RowTag(st, InGroupMode, t.rows[i]) == Ok(Bool(true)) <==>
      var d := Get(t.rows[i], "dataset");
      d.Str? && IsFile(st, TaxonomyPath(d.s)) && Taxonomy(st.files[TaxonomyPath(d.s)]).Ok? &&
      CellInt(Get(t.rows[i], "label")).Ok? &&
      CellInt(Get(t.rows[i], "label")).value in Taxonomy(st.files[TaxonomyPath(d.s)]).value
  {
    TaggedRows(st, InGroupMode, t, i);
  }

  // ---------------------------------------------------------------------------
  // The two entry points

  /** `is_overlap_measure`. */
  predicate IsOverlapMeasure(m: string): (r: bool)
    ensures r <==> m == "dsc" || m == "jsc"
  {
    m in ["dsc", "jsc"]
  }

  /** The tables argument: one DataFrame or a dictionary of them. */
  datatype Frames = Frame(t: Table) | PerMeasure(d: Dfs)

  /** The `measure` argument: None, one name, or a list of names. */
  datatype MeasureArg = NoMeasure | OneMeasure(m: string) | Measures(ms: seq<string>)

  /** A single table when one measure was asked for, the dictionary otherwise. */
  datatype Averages = Single(t: Table) | Several(d: Dfs)

  /** The argument handling: the tables as a dictionary, and the measures asked for (None standing for the None entry). */
  function Normalised(dfs: Frames, measure: MeasureArg): (r: (Dfs, seq<Option<string>>))
    requires !(measure.Measures? && dfs.Frame?)
    ensures measure.NoMeasure? && dfs.Frame? ==> r == ([("dsc", dfs.t)], [Some("dsc")])
    ensures measure.OneMeasure? ==> r.1 == [Some(measure.m)]
    ensures dfs.PerMeasure? ==> r.0 == dfs.d
  {
    match measure
    case NoMeasure =>
      if dfs.Frame? then ([("dsc", dfs.t)], [Some("dsc")]) else (dfs.d, [None])
    case OneMeasure(m) =>
      (if dfs.Frame? then [(m, dfs.t)] else dfs.d, [Some(m)])
    case Measures(ms) =>
      (dfs.d, seq(|ms|, i requires 0 <= i < |ms| => Some(ms[i])))
  }

  /** `m in measure or is_overlap_measure(m)`. */
  predicate Selected(m: string, ms: seq<Option<string>>)
  {
    Some(m) in ms || IsOverlapMeasure(m)
  }

  /** What happens to one selected table: the in-group rows, or the group-tagged rows. */
  function Process(st: Store, mode: Mode, t: Table): Result<Table>
  {
    if mode == InGroupMode then InGroup(st, t) else Tagged(st, GroupMode, t)
  }

  /** `Process` for one store and mode, as a function of the table. */
  function Processor(st: Store, mode: Mode): Table -> Result<Table>
  {
    t => Process(st, mode, t)
  }

  /** The loop `for m in dfs` over the first `n` entries. */
  function AverageAll(process: Table -> Result<Table>, d: Dfs, ms: seq<Option<string>>, n: nat): Result<Dfs>
    requires n <= |d|
  {
    if n == 0 then Ok([])
    else
      match AverageAll(process, d, ms, n - 1)
      case Err(e) => Err(e)
      case Ok(prev) =>
        var (m, t) := d[n - 1];
        if !Selected(m, ms) then Ok(prev)
        else
          match process(t)
          case Err(e) => Err(e)
          case Ok(avg) => Ok(Put(prev, m, avg))
  }

  /** Some entry among the first `n` carries measure `m`, and `m` is selected. */
  predicate SelectedBefore(d: Dfs, ms: seq<Option<string>>, m: string, n: nat)
    requires n <= |d|
  {
    exists i :: 0 <= i < n && d[i].0 == m && Selected(m, ms)
  }

  lemma SelectedBeforeStep(d: Dfs, ms: seq<Option<string>>, m: string, n: nat)
    requires 0 < n <= |d|
    ensures SelectedBefore(d, ms, m, n) <==> SelectedBefore(d, ms, m, n - 1) || (d[n - 1].0 == m && Selected(m, ms))
  {
    if SelectedBefore(d, ms, m, n) && !(d[n - 1].0 == m && Selected(m, ms)) {
      var i :| 0 <= i < n && d[i].0 == m && Selected(m, ms);
      assert i < n - 1;
    }
  }

  /** The result holds exactly the selected measures. */
  lemma {:induction false} AverageAllKeys(process: Table -> Result<Table>, d: Dfs, ms: seq<Option<string>>, n: nat)
    requires n <= |d|
    ensures AverageAll(process, d, ms, n).Ok? ==> forall m ::
      m in Keys(AverageAll(process, d, ms, n).value) <==> SelectedBefore(d, ms, m, n)
  {
    if n > 0 && AverageAll(process, d, ms, n).Ok? {
      AverageAllKeysStep(process, d, ms, n);
      AverageAllKeys(process, d, ms, n - 1);
      forall m
        ensures m in Keys(AverageAll(process, d, ms, n).value) <==> SelectedBefore(d, ms, m, n)
      {
        SelectedBeforeStep(d, ms, m, n);
      }
    }
  }

  /** One step of the loop adds the entry's measure when it is selected, and nothing else. */
  lemma AverageAllKeysStep(process: Table -> Result<Table>, d: Dfs, ms: seq<Option<string>>, n: nat)
    requires 0 < n <= |d| && AverageAll(process, d, ms, n).Ok?
    ensures AverageAll(process, d, ms, n - 1).Ok? && forall m ::
      m in Keys(AverageAll(process, d, ms, n).value) <==>
        m in Keys(AverageAll(process, d, ms, n - 1).value) || (d[n - 1].0 == m && Selected(m, ms))
  {
    var prev := AverageAll(process, d, ms, n - 1).value;
    var (k, t) := d[n - 1];
    if Selected(k, ms) {
      PutKeys(prev, k, process(t).value);
    }
  }

  /** The result exists only when every selected table was processed. */
  lemma {:induction false} AverageAllProcessed(process: Table -> Result<Table>, d: Dfs, ms: seq<Option<string>>, n: nat, i: nat)
    requires i < n <= |d| && AverageAll(process, d, ms, n).Ok? && Selected(d[i].0, ms)
    ensures process(d[i].1).Ok?
  {
    var prev := AverageAll(process, d, ms, n - 1);
    assert prev.Ok?;
    if i < n - 1 {
      AverageAllProcessed(process, d, ms, n - 1, i);
    } else {
      assert Selected(d[n - 1].0, ms);
    }
  }

  /** Each selected measure of the dictionary gets its own processed table. */
  lemma {:induction false} AverageAllEntries(process: Table -> Result<Table>, d: Dfs, ms: seq<Option<string>>, n: nat, i: nat)
    requires i < n <= |d| && Distinct(Keys(d)) && AverageAll(process, d, ms, n).Ok? && Selected(d[i].0, ms)
    ensures process(d[i].1).Ok?
    ensures Lookup(AverageAll(process, d, ms, n).value, d[i].0) == process(d[i].1)
  {
    var prev := AverageAll(process, d, ms, n - 1);
    var (m, t) := d[n - 1];
    if i < n - 1 {
      AverageAllEntries(process, d, ms, n - 1, i);
      assert Keys(d)[i] != Keys(d)[n - 1];
      if Selected(m, ms) {
        PutLookup(prev.value, m, process(t).value, d[i].0);
      }
    } else {
      PutLookup(prev.value, m, process(t).value, m);
    }
  }

  /** The result: `avg[measure[0]]` for one named measure, else the dictionary. */
  function Averaged(st: Store, mode: Mode, dfs: Frames, measure: MeasureArg): (r: Result<Averages>)
    requires !(measure.Measures? && dfs.Frame?)
    ensures measure.OneMeasure? && dfs.PerMeasure? && measure.m !in Keys(dfs.d) ==> r.Err?
    ensures measure.NoMeasure? && dfs.PerMeasure? && r.Ok? ==> r.value.Several?
  {
    var (d, ms) := Normalised(dfs, measure);
    AverageAllKeys(Processor(st, mode), d, ms, |d|);
    match AverageAll(Processor(st, mode), d, ms, |d|)
    case Err(e) => Err(e)
    case Ok(avg) =>
      if |ms| == 1 && ms[0].Some? then
        match Lookup(avg, ms[0].value)
        case Err(e) => Err(e)
        case Ok(t) => Ok(Single(t))
      else Ok(Several(avg))
  }

  /** One measure named in a dictionary: the result is that measure's processed table, and its failure fails it. */
  lemma AveragedOne(st: Store, mode: Mode, d: Dfs, m: string, i: nat)
    requires i < |d| && d[i].0 == m && Distinct(Keys(d))
    ensures Averaged(st, mode, PerMeasure(d), OneMeasure(m)).Ok? ==>
      Process(st, mode, d[i].1).Ok? && Averaged(st, mode, PerMeasure(d), OneMeasure(m)) == Ok(Single(Process(st, mode, d[i].1).value))
    ensures Process(st, mode, d[i].1).Err? ==> Averaged(st, mode, PerMeasure(d), OneMeasure(m)).Err?
  {
    assert Normalised(PerMeasure(d), OneMeasure(m)) == (d, [Some(m)]);
    assert Selected(m, [Some(m)]);
    if AverageAll(Processor(st, mode), d, [Some(m)], |d|).Ok? {
      AverageAllEntries(Processor(st, mode), d, [Some(m)], |d|, i);
    }
  }

  /** `average_overlap`, up to the averaging. */
  function AverageOverlap(st: Store, dfs: Frames, measure: MeasureArg): (r: Result<Averages>)
    requires !(measure.Measures? && dfs.Frame?)
    ensures measure.OneMeasure? && dfs.PerMeasure? && measure.m !in Keys(dfs.d) ==> r.Err?
    ensures measure.NoMeasure? && dfs.PerMeasure? && r.Ok? ==> r.value.Several?
  {
    Averaged(st, InGroupMode, dfs, measure)
  }

  /** `average_group_overlap`, up to the averaging. */
  function AverageGroupOverlap(st: Store, dfs: Frames, measure: MeasureArg): (r: Result<Averages>)
    requires !(measure.Measures? && dfs.Frame?)
    ensures measure.OneMeasure? && dfs.PerMeasure? && measure.m !in Keys(dfs.d) ==> r.Err?
    ensures measure.NoMeasure? && dfs.PerMeasure? && r.Ok? ==> r.value.Several?
  {
    Averaged(st, GroupMode, dfs, measure)
  }

  /** A single DataFrame without a measure is the `dsc` table: its in-group rows, or its group-tagged rows. */
  lemma OneFrame(st: Store, t: Table)
    ensures AverageOverlap(st, Frame(t), NoMeasure) ==
      match InGroup(st, t) case Ok(u) => Ok(Single(u)) case Err(e) => Err(e)
    ensures AverageGroupOverlap(st, Frame(t), NoMeasure) ==
      match Tagged(st, GroupMode, t) case Ok(u) => Ok(Single(u)) case Err(e) => Err(e)
  {
    var d := [("dsc", t)];
    assert Normalised(Frame(t), NoMeasure) == (d, [Some("dsc")]);
    OneFrameMode(st, InGroupMode, t);
    OneFrameMode(st, GroupMode, t);
  }

  lemma OneFrameMode(st: Store, mode: Mode, t: Table)
    ensures Averaged(st, mode, Frame(t), NoMeasure) ==
      match Process(st, mode, t) case Ok(u) => Ok(Single(u)) case Err(e) => Err(e)
  {
    var d := [("dsc", t)];
    assert Normalised(Frame(t), NoMeasure) == (d, [Some("dsc")]);
    assert Selected("dsc", [Some("dsc")]);
    var process := Processor(st, mode);
    assert AverageAll(process, d, [Some("dsc")], 0) == Ok([]);
    assert process(t) == Process(st, mode, t);
    match Process(st, mode, t)
    case Err(e) =>
      assert AverageAll(process, d, [Some("dsc")], 1) == Err(e);
    case Ok(u) =>
      assert AverageAll(process, d, [Some("dsc")], 1) == Ok(Put([], "dsc", u));
      PutLookup([], "dsc", u, "dsc");
  }

  /** The loops over the tables and, within each, over its datasets. */
  method AverageTables(st: Store, mode: Mode, dfs: Frames, measure: MeasureArg) returns (r: Result<Averages>)
    requires !(measure.Measures? && dfs.Frame?)
    ensures r == Averaged(st, mode, dfs, measure)
  {
    var (d, ms) := Normalised(dfs, measure);
    var all := AverageEach(st, mode, d, ms);
    if all.Err? {
      return Err(all.error);
    }
    var avg := all.value;
    if |ms| == 1 && ms[0].Some? {
      var found := Lookup(avg, ms[0].value);
      r := if found.Err? then Err(found.error) else Ok(Single(found.value));
    } else {
      r := Ok(Several(avg));
    }
  }

  /** The loop `for m in dfs`: each selected table processed and stored under its measure. */
  method AverageEach(st: Store, mode: Mode, d: Dfs, ms: seq<Option<string>>) returns (r: Result<Dfs>)
    ensures r == AverageAll(Processor(st, mode), d, ms, |d|)
  {
    var avg: Dfs := [];
    var n := 0;
    while n < |d|
      invariant 0 <= n <= |d|
      invariant AverageAll(Processor(st, mode), d, ms, n) == Ok(avg)
    {
      var next := AverageStep(st, mode, d, ms, n, avg);
      if next.Err? {
        AverageAllFailureStays(Processor(st, mode), d, ms, n + 1, |d|);
        return next;
      }
      avg := next.value;
      n := n + 1;
    }
    r := Ok(avg);
  }

  /** One pass of that loop: the table of entry `n` processed and stored when its measure is selected. */
  method AverageStep(st: Store, mode: Mode, d: Dfs, ms: seq<Option<string>>, n: nat, avg: Dfs) returns (r: Result<Dfs>)
    requires n < |d| && AverageAll(Processor(st, mode), d, ms, n) == Ok(avg)
    ensures r == AverageAll(Processor(st, mode), d, ms, n + 1)
  {
    var (m, t) := d[n];
    if !Selected(m, ms) {
      return Ok(avg);
    }
    var out := ProcessTable(st, mode, t);
    assert out == Processor(st, mode)(t);
    r := if out.Err? then Err(out.error) else Ok(Put(avg, m, out.value));
  }

  /** One selected table: tag it, then keep the in-group rows when averaging within groups. */
  method ProcessTable(st: Store, mode: Mode, t: Table) returns (r: Result<Table>)
    ensures r == Process(st, mode, t)
  {
    var tagged := TagTable(st, mode, t);
    if tagged.Err? {
      return tagged;
    }
    if mode == InGroupMode {
      r := Ok(DropColumn(Table(tagged.value.columns, InGroupRows(tagged.value.rows)), "ingroup"));
    } else {
      r := tagged;
    }
  }

  lemma {:induction false} AverageAllFailureStays(process: Table -> Result<Table>, d: Dfs, ms: seq<Option<string>>, n: nat, k: nat)
    requires n <= k <= |d| && AverageAll(process, d, ms, n).Err?
    ensures AverageAll(process, d, ms, k) == AverageAll(process, d, ms, n)
    decreases k - n
  {
    if n < k {
      AverageAllFailureStays(process, d, ms, n, k - 1);
    }
  }

  /** `assign(...)`, then `for dataset in datasets: ... df.loc[df.dataset == dataset, tag] = col`. */
  method TagTable(st: Store, mode: Mode, t: Table) returns (r: Result<Table>)
    ensures r == Tagged(st, mode, t)
  {
    var missing := MissingRegInfo(t);
    if missing.Some? {
      return Err(MissingColumn(missing.value));
    }
    var df := SetColumn(t, TagColumn(mode), seq(|t.rows|, _ => Untagged(mode)));
    if "dataset" !in df.columns {
      return Err(MissingColumn("dataset"));
    }
    ghost var t1 := df;
    var ds := Datasets(df.rows, |df.rows|);
    var k := 0;
    while k < |ds|
      invariant 0 <= k <= |ds|
      invariant TagAll(st, mode, t1, ds, k) == Ok(df)
    {
      var next := TagDatasetStep(st, mode, df, ds[k]);
      assert TagAll(st, mode, t1, ds, k + 1) == next;
      if next.Err? {
        TagAllFailureStays(st, mode, t1, ds, k + 1, |ds|);
        return next;
      }
      df := next.value;
      k := k + 1;
    }
    r := Ok(df);
  }

  /** The body of the dataset loop: read the taxonomy, build the label map, tag the dataset's rows. */
  method TagDatasetStep(st: Store, mode: Mode, df: Table, d: Cell) returns (r: Result<Table>)
    ensures r == TagDataset(st, mode, df, d)
  {
    if !d.Str? {
      return Err(NoneOperand);
    }
    var path := TaxonomyPath(d.s);
    if !IsFile(st, path) {
      return Ok(df);
    }
    var groups := ReadTaxonomy(st.files[path]);
    if groups.Err? {
      return Err(groups.error);
    }
    if "label" !in df.columns {
      return Err(MissingColumn("label"));
    }
    var rows := TagRows(mode, groups.value, df.rows, d, |df.rows|);
    if rows.Err? {
      return Err(rows.error);
    }
    r := Ok(Table(df.columns, rows.value));
  }

  lemma {:induction false} TagAllFailureStays(st: Store, mode: Mode, t: Table, ds: seq<Cell>, n: nat, k: nat)
    requires n <= k <= |ds| && TagAll(st, mode, t, ds, n).Err?
    ensures TagAll(st, mode, t, ds, k) == TagAll(st, mode, t, ds, n)
    decreases k - n
  {
    if n < k {
      TagAllFailureStays(st, mode, t, ds, n, k - 1);
    }
  }
}
