/**
 * The part of a pandas DataFrame the query layer relies on: ordered column
 * names and rows of named cells. A row that has no entry for a column reads
 * as missing (NaN), which is how `pd.concat` fills the columns one side lacks.
 */
module Tables {
  import opened Wrappers

  /** A cell: missing (NaN/None), a string, an integer, a float or a boolean. */
  datatype Cell = Null | Str(s: string) | Int(n: int) | Real(x: real) | Bool(b: bool)

  type Row = map<string, Cell>

  datatype Table = Table(columns: seq<string>, rows: seq<Row>)

  /** The value of `column` in `row`; missing when the row has no such entry. */
  function Get(row: Row, column: string): Cell
  {
    if column in row then row[column] else Null
  }

  /** `pd.DataFrame()`: no columns and no rows. */
  const Empty: Table := Table([], [])

  predicate Distinct(s: seq<string>)
  {
    forall i, j :: 0 <= i < j < |s| ==> s[i] != s[j]
  }

  // ---------------------------------------------------------------------------
  // pd.concat

  /**
   * The columns of `pd.concat([a, b])`: those of `a`, then those of `b` that `a`
   * lacks, in order of first appearance.
   */
  function Union(a: seq<string>, b: seq<string>): (r: seq<string>)
    ensures |r| >= |a| && r[..|a|] == a
    ensures forall c :: c in r <==> c in a || c in b
    ensures Distinct(a) ==> Distinct(r)
    decreases |b|
  {
    if b == [] then a
    else
      var a' := if b[0] in a then a else a + [b[0]];
      var r := Union(a', b[1..]);
      assert r[..|a|] == a' [..|a|];
      assert forall c :: c in b <==> c == b[0] || c in b[1..];
      r
  }

  /** `pd.concat([a, b])`: the rows of `a` followed by those of `b`. */
  function Concat(a: Table, b: Table): Table
  {
    Table(Union(a.columns, b.columns), a.rows + b.rows)
  }

  /**
   * What `pd.concat([a, b])` yields: all rows of `a`, then all rows of `b`;
   * the columns of `a` first, and exactly the columns found in either table.
   */
  lemma ConcatLayout(a: Table, b: Table)
    ensures var r := Concat(a, b);
      |r.rows| == |a.rows| + |b.rows| && r.rows[..|a.rows|] == a.rows && r.rows[|a.rows|..] == b.rows &&
      |r.columns| >= |a.columns| && r.columns[..|a.columns|] == a.columns &&
      forall c :: c in r.columns <==> c in a.columns || c in b.columns
  {
  }

  /** No name of `b` occurs in `a` when `a + b` is duplicate-free. */
  lemma DistinctParts(a: seq<string>, b: seq<string>)
    requires Distinct(a + b)
    ensures forall x :: x in b ==> x !in a
  {
    forall i, j | 0 <= i < |a| && 0 <= j < |b| ensures a[i] != b[j] {
      assert (a + b)[i] == a[i] && (a + b)[|a| + j] == b[j];
    }
  }

  lemma {:induction false} UnionOfDistinct(a: seq<string>, b: seq<string>)
    requires Distinct(a + b)
    ensures Union(a, b) == a + b
    decreases |b|
  {
    if b != [] {
      DistinctParts(a, b);
      assert a + [b[0]] + b[1..] == a + b;
      UnionOfDistinct(a + [b[0]], b[1..]);
    }
  }

  lemma ConcatOntoEmpty(t: Table)
    requires Distinct(t.columns)
    ensures Concat(Empty, t) == t
  {
    assert [] + t.columns == t.columns;
    UnionOfDistinct([], t.columns);
    assert [] + t.rows == t.rows;
  }

  /**
   * The loop `df = pd.concat([df, f(x)])` over the first `n` results: the first
   * exception raised ends it, otherwise the fragments are concatenated in order.
   */
  function ConcatPrefix(rs: seq<Result<Table>>, n: nat): Result<Table>
    requires n <= |rs|
  {
    if n == 0 then Ok(Empty)
    else
      match ConcatPrefix(rs, n - 1)
      case Err(e) => Err(e)
      case Ok(df) =>
        match rs[n - 1]
        case Err(e) => Err(e)
        case Ok(t) => Ok(Concat(df, t))
  }

  function ConcatAll(rs: seq<Result<Table>>): Result<Table>
  {
    ConcatPrefix(rs, |rs|)
  }

  /** All the rows of the fragments, in order. */
  function AllRows(ts: seq<Table>): seq<Row>
  {
    if ts == [] then [] else AllRows(ts[..|ts| - 1]) + ts[|ts| - 1].rows
  }

  /** The fragments of a list of results none of which failed. */
  function Values(rs: seq<Result<Table>>): (ts: seq<Table>)
    requires forall i :: 0 <= i < |rs| ==> rs[i].Ok?
    ensures |ts| == |rs| && forall i :: 0 <= i < |rs| ==> rs[i] == Ok(ts[i])
  {
    seq(|rs|, i requires 0 <= i < |rs| => rs[i].value)
  }

  /** When no sub-query fails, the accumulated table holds the rows of every fragment in order. */
  lemma {:induction false} ConcatPrefixRows(rs: seq<Result<Table>>, n: nat)
    requires n <= |rs| && forall i :: 0 <= i < n ==> rs[i].Ok?
    ensures ConcatPrefix(rs, n).Ok? && ConcatPrefix(rs, n).value.rows == AllRows(Values(rs[..n]))
  {
    if n > 0 {
      ConcatPrefixRows(rs, n - 1);
      var ts := Values(rs[..n]);
      assert ts[..n - 1] == Values(rs[..n - 1]);
      assert ts[n - 1] == rs[n - 1].value;
    }
  }

  /** The first sub-query that fails is the outcome. */
  lemma ConcatPrefixFirstFailure(rs: seq<Result<Table>>, n: nat, i: nat)
    requires i < n <= |rs| && rs[i].Err? && forall j :: 0 <= j < i ==> rs[j].Ok?
    ensures ConcatPrefix(rs, n) == rs[i]
  {
    ConcatPrefixRows(rs, i);
    ConcatPrefixFailureStays(rs, i + 1, n);
  }

  /** Once a sub-query has failed, the loop's outcome is that failure. */
  lemma {:induction false} ConcatPrefixFailureStays(rs: seq<Result<Table>>, n: nat, m: nat)
    requires n <= m <= |rs| && ConcatPrefix(rs, n).Err?
    ensures ConcatPrefix(rs, m) == ConcatPrefix(rs, n)
    decreases m - n
  {
    if n < m {
      ConcatPrefixFailureStays(rs, n, m - 1);
    }
  }

  /** Concatenating results in order: the rows in order, or the first failure. */
  lemma ConcatAllOutcome(rs: seq<Result<Table>>)
    ensures (forall i :: 0 <= i < |rs| ==> rs[i].Ok?) ==>
      ConcatAll(rs).Ok? && ConcatAll(rs).value.rows == AllRows(Values(rs))
    ensures forall i :: 0 <= i < |rs| && rs[i].Err? && (forall j :: 0 <= j < i ==> rs[j].Ok?) ==>
      ConcatAll(rs) == rs[i]
  {
    assert rs[..|rs|] == rs;
    if forall i :: 0 <= i < |rs| ==> rs[i].Ok? {
      ConcatPrefixRows(rs, |rs|);
    }
    forall i | 0 <= i < |rs| && rs[i].Err? && (forall j :: 0 <= j < i ==> rs[j].Ok?)
      ensures ConcatAll(rs) == rs[i]
    {
      ConcatPrefixFirstFailure(rs, |rs|, i);
    }
  }

  /** Columns every fragment begins with survive concatenation. */
  lemma {:induction false} ConcatPrefixKeepsLead(rs: seq<Result<Table>>, n: nat, lead: seq<string>)
    requires n <= |rs| && Distinct(lead)
    requires forall i :: 0 <= i < n && rs[i].Ok? ==>
      rs[i].value.columns == [] || (|lead| <= |rs[i].value.columns| && rs[i].value.columns[..|lead|] == lead)
    ensures ConcatPrefix(rs, n).Ok? ==>
      ConcatPrefix(rs, n).value.columns == [] ||
      (|lead| <= |ConcatPrefix(rs, n).value.columns| && ConcatPrefix(rs, n).value.columns[..|lead|] == lead)
  {
    if n > 0 {
      ConcatPrefixKeepsLead(rs, n - 1, lead);
      var prev := ConcatPrefix(rs, n - 1);
      if prev.Ok? && rs[n - 1].Ok? {
        var a, b := prev.value.columns, rs[n - 1].value.columns;
        var u := Union(a, b);
        if a == [] {
          UnionOfDistinctPrefix(b, lead);
        } else {
          assert u[..|a|] == a;
          assert u[..|lead|] == a[..|lead|];
        }
      }
    }
  }

  lemma {:induction false} UnionOfDistinctPrefix(b: seq<string>, lead: seq<string>)
    requires Distinct(lead)
    requires b == [] || (|lead| <= |b| && b[..|lead|] == lead)
    ensures Union([], b) == [] || (|lead| <= |Union([], b)| && Union([], b)[..|lead|] == lead)
  {
    if b != [] {
      UnionFromEmptyLead(b, |lead|);
    }
  }

  /** When the first `k` names of `b` are distinct, `Union([], b)` begins with them. */
  lemma {:induction false} UnionFromEmptyLead(b: seq<string>, k: nat)
    requires k <= |b|
    ensures Distinct(b[..k]) ==> |Union([], b)| >= k && Union([], b)[..k] == b[..k]
  {
    if Distinct(b[..k]) {
      UnionStartsWithLead([], b, k);
      assert [] + b[..k] == b[..k];
    }
  }

  lemma {:induction false} UnionStartsWithLead(a: seq<string>, b: seq<string>, k: nat)
    requires k <= |b| && Distinct(a + b[..k])
    ensures |Union(a, b)| >= |a| + k && Union(a, b)[..|a| + k] == a + b[..k]
    decreases |b|
  {
    if k > 0 {
      DistinctParts(a, b[..k]);
      assert (a + [b[0]]) + b[1..][..k - 1] == a + b[..k];
      UnionStartsWithLead(a + [b[0]], b[1..], k - 1);
    } else {
      assert a + b[..k] == a;
    }
  }

  // ---------------------------------------------------------------------------
  // Column edits

  /**
   * `df.insert(loc, name, value)`: a new column at position `loc` holding
   * `value` in every row; ValueError when the column already exists.
   */
  function Insert(t: Table, loc: nat, name: string, value: Cell): (r: Result<Table>)
    requires loc <= |t.columns|
    ensures r.Err? <==> name in t.columns
    ensures r.Ok? ==> r.value.columns == t.columns[..loc] + [name] + t.columns[loc..]
    ensures r.Ok? ==> |r.value.rows| == |t.rows|
    ensures r.Ok? ==> forall i :: 0 <= i < |t.rows| ==> r.value.rows[i] == t.rows[i][name := value]
  {
    if name in t.columns then Err(DuplicateColumn(name))
    else Ok(Table(t.columns[..loc] + [name] + t.columns[loc..],
                  seq(|t.rows|, i requires 0 <= i < |t.rows| => t.rows[i][name := value])))
  }

  /** `df.rename(columns={from: to})` for one name. */
  function Rename(t: Table, from: string, to: string): (r: Table)
    ensures |r.columns| == |t.columns| && |r.rows| == |t.rows|
    ensures forall i :: 0 <= i < |t.columns| ==>
      r.columns[i] == if t.columns[i] == from then to else t.columns[i]
    ensures forall i, c :: 0 <= i < |t.rows| && c != from && c != to ==> Get(r.rows[i], c) == Get(t.rows[i], c)
    ensures from in t.columns && from != to ==> forall i :: 0 <= i < |t.rows| ==>
      Get(r.rows[i], to) == Get(t.rows[i], from) && Get(r.rows[i], from) == Null
  {
    if from !in t.columns || from == to then t
    else
      Table(seq(|t.columns|, i requires 0 <= i < |t.columns| => if t.columns[i] == from then to else t.columns[i]),
            seq(|t.rows|, i requires 0 <= i < |t.rows| => RenameKey(t.rows[i], from, to)))
  }

  function RenameKey(row: Row, from: string, to: string): (r: Row)
    requires from != to
    ensures Get(r, to) == Get(row, from) && Get(r, from) == Null
    ensures forall c :: c != from && c != to ==> Get(r, c) == Get(row, c)
  {
    var rest := map c | c in row && c != from && c != to :: row[c];
    if from in row then rest[to := row[from]] else rest
  }

  /**
   * `df.assign(name=...)` and `df[name] = ...`: the column keeps its place when it
   * exists and is appended otherwise; row `i` gets `values[i]`.
   */
  function SetColumn(t: Table, name: string, values: seq<Cell>): (r: Table)
    requires |values| == |t.rows|
    ensures r.columns == if name in t.columns then t.columns else t.columns + [name]
    ensures |r.rows| == |t.rows|
    ensures forall i :: 0 <= i < |t.rows| ==> r.rows[i] == t.rows[i][name := values[i]]
  {
    Table(if name in t.columns then t.columns else t.columns + [name],
          seq(|t.rows|, i requires 0 <= i < |t.rows| => t.rows[i][name := values[i]]))
  }

  /** `del df[name]`. */
  function DropColumn(t: Table, name: string): (r: Table)
    ensures name !in r.columns && forall c :: c in r.columns <==> c in t.columns && c != name
    ensures |r.rows| == |t.rows|
    ensures forall i, c :: 0 <= i < |t.rows| && c != name ==> Get(r.rows[i], c) == Get(t.rows[i], c)
    decreases |t.columns|
  {
    var cols := Without(t.columns, name);
    Table(cols, seq(|t.rows|, i requires 0 <= i < |t.rows| => map c | c in t.rows[i] && c != name :: t.rows[i][c]))
  }

  function Without(s: seq<string>, x: string): (r: seq<string>)
    ensures forall c :: c in r <==> c in s && c != x
  {
    if s == [] then []
    else (if s[0] == x then [] else [s[0]]) + Without(s[1..], x)
  }
}
