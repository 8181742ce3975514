/**
 * What the query layer reads from outside: the directory tree below the
 * repository root (listings and CSV tables), and two pandas computations that
 * the model leaves abstract.
 */
module Storage {
  import opened Wrappers
  import opened Tables

  /** A path below the repository root, one component per directory level. */
  type Path = seq<string>

  datatype Store = Store(
    dirs: map<Path, seq<string>>,           // each existing directory with its listing
    files: map<Path, Table>,                // each existing CSV file with its parsed table
    join: (Table, Table, Table) -> Table,   // the mean/sdev/size merge on 'roi'
    pctexcl: (Cell, Cell) -> Cell)          // 100 * nexcl / (n + nexcl) for one row

  /** `os.path.join(p, c)`: an empty component adds nothing but a trailing separator. */
  function Join(p: Path, c: string): (r: Path)
    ensures c == "" ==> r == p
    ensures c != "" ==> r == p + [c]
  {
    if c == "" then p else p + [c]
  }

  predicate IsDir(st: Store, p: Path) { p in st.dirs }

  predicate IsFile(st: Store, p: Path) { p in st.files }

  /** `os.path.exists`: a file or a directory. */
  predicate Exists(st: Store, p: Path) { p in st.dirs || p in st.files }

  /** `os.listdir`: FileNotFoundError for a missing directory. */
  function ListDir(st: Store, p: Path): (r: Result<seq<string>>)
    ensures r.Ok? <==> IsDir(st, p)
    ensures r.Err? ==> r.error == NoSuchDirectory(p)
  {
    if p in st.dirs then Ok(st.dirs[p]) else Err(NoSuchDirectory(p))
  }

  /** `pd.read_csv`: FileNotFoundError unless the path is a file. */
  function ReadCsv(st: Store, p: Path): (r: Result<Table>)
    ensures r.Ok? <==> IsFile(st, p)
    ensures r.Err? ==> r.error == NoSuchFile(p)
  {
    if p in st.files then Ok(st.files[p]) else Err(NoSuchFile(p))
  }
}
