/**
 * Where results live: the zero-padded cfgid directory name, the table
 * directory of a dataset and regid, the parameter-set and target ids found by
 * listing it, and the search for a parameter CSV file.
 */
module Naming {
  import opened Wrappers
  import opened StringUtil
  import opened Tables
  import opened Selectors
  import opened Storage

  // ---------------------------------------------------------------------------
  // cfgidstr

  /**
   * `cfgidstr`: an integer in decimal zero-padded to width four, a string as it
   * is, and ValueError for anything else.
   */
  function CfgidStr(c: Cfgid): (r: Result<string>)
    ensures c.IntId? ==> r.Ok? && |r.value| >= 4 && ParseInt(r.value) == Some(c.n)
    ensures c.IntId? && 0 <= c.n < 10000 ==> r.Ok? && |r.value| == 4 && AllDigits(r.value)
    ensures c.StrId? ==> r == Ok(c.s)
    ensures c.OtherId? ==> r == Err(BadCfgidType)
  {
    match c
    case IntId(n) =>
      Format04RoundTrip(n);
      Ok(Format04(n))
    case StrId(s) => Ok(s)
    case OtherId(_, _) => Err(BadCfgidType)
  }

  /** Different integer ids never share a directory name. */
  lemma CfgidStrInjective(a: int, b: int)
    requires a != b
    ensures CfgidStr(IntId(a)) != CfgidStr(IntId(b))
  {
  }

  // ---------------------------------------------------------------------------
  // get_csvdir

  /** `var/table/<dataset>/<regid>` below the repository root. */
  function TableDir(dataset: string, regid: string): Path
  {
    Join(Join(["var", "table"], dataset), regid)
  }

  /**
   * `get_csvdir` as written: joining a regid of None raises TypeError, and a
   * truthy cfgid reaches the call of the undefined name `cfgidst`.
   */
  function CsvDirAsWritten(dataset: string, regid: Option<string>, cfgid: Option<Cfgid>): (r: Result<Path>)
    ensures r.Ok? <==> regid.Some? && (cfgid.None? || !CfgidTruthy(cfgid.value))
    ensures r.Ok? ==> r.value == TableDir(dataset, regid.value)
  {
    if regid.None? then Err(NoneOperand)
    else if cfgid.Some? && CfgidTruthy(cfgid.value) then Err(UndefinedName("cfgidst"))
    else Ok(TableDir(dataset, regid.value))
  }

  /**
   * `get_csvdir` with `cfgidstr` called as intended: a truthy cfgid adds its
   * directory name below the table directory; 0, "" and None add nothing.
   */
  function CsvDir(dataset: string, regid: Option<string>, cfgid: Option<Cfgid>): (r: Result<Path>)
    ensures regid.None? ==> r == Err(NoneOperand)
    ensures regid.Some? && (cfgid.None? || !CfgidTruthy(cfgid.value)) ==> r == Ok(TableDir(dataset, regid.value))
    ensures regid.Some? && cfgid.Some? && cfgid.value.IntId? && cfgid.value.n != 0 ==>
      r == Ok(TableDir(dataset, regid.value) + [Format04(cfgid.value.n)])
    ensures regid.Some? && cfgid.Some? && cfgid.value.OtherId? && cfgid.value.truthy ==> r == Err(BadCfgidType)
  {
    if regid.None? then Err(NoneOperand)
    else if cfgid.Some? && CfgidTruthy(cfgid.value) then
      match CfgidStr(cfgid.value)
      case Err(e) => Err(e)
      case Ok(name) => Ok(Join(TableDir(dataset, regid.value), name))
    else Ok(TableDir(dataset, regid.value))
  }

  /** Every truthy cfgid makes the code as written fail, where the intended code gives the subdirectory. */
  lemma CsvDirFinding(dataset: string, regid: string, n: int)
    requires n != 0
    ensures CsvDirAsWritten(dataset, Some(regid), Some(IntId(n))) == Err(UndefinedName("cfgidst"))
    ensures CsvDir(dataset, Some(regid), Some(IntId(n))) == Ok(TableDir(dataset, regid) + [Format04(n)])
  {
  }

  /** The two agree whenever the cfgid is falsy. */
  lemma CsvDirAgreesWithoutCfgid(dataset: string, regid: Option<string>, cfgid: Option<Cfgid>)
    requires cfgid.None? || !CfgidTruthy(cfgid.value)
    ensures CsvDirAsWritten(dataset, regid, cfgid) == CsvDir(dataset, regid, cfgid)
  {
  }

  // ---------------------------------------------------------------------------
  // get_cfgids

  /** `^[0-9]+$`: digits, optionally followed by one final newline. */
  predicate IsCfgidName(d: string) { AllDigits(DropFinalNewline(d)) }

  /** `int(d)` for the matching entries of a listing, in listing order. */
  function CfgidValues(listing: seq<string>): seq<int>
  {
    if listing == [] then []
    else
      var d := listing[|listing| - 1];
      CfgidValues(listing[..|listing| - 1]) + if IsCfgidName(d) then [DigitsValue(DropFinalNewline(d)) as int] else []
  }

  predicate SortedInts(s: seq<int>)
  {
    forall i, j :: 0 <= i < j < |s| ==> s[i] <= s[j]
  }

  lemma SortedCons(h: int, t: seq<int>)
    requires SortedInts(t) && forall j :: 0 <= j < |t| ==> h <= t[j]
    ensures SortedInts([h] + t)
  {
    var r := [h] + t;
    forall i, j | 0 <= i < j < |r| ensures r[i] <= r[j] {
      assert r[j] == t[j - 1];
      if i > 0 { assert r[i] == t[i - 1]; }
    }
  }

  /** Places `x` in a sorted list. */
  function InsertSorted(s: seq<int>, x: int): (r: seq<int>)
    requires SortedInts(s)
    ensures SortedInts(r) && multiset(r) == multiset(s) + multiset{x}
  {
    if s == [] || x <= s[0] then
      SortedCons(x, s);
      [x] + s
    else
      var t := InsertSorted(s[1..], x);
      InsertedAfterHead(s, x, t);
      [s[0]] + t
  }

  lemma InsertedAfterHead(s: seq<int>, x: int, t: seq<int>)
    requires SortedInts(s) && s != [] && s[0] < x
    requires SortedInts(t) && multiset(t) == multiset(s[1..]) + multiset{x}
    ensures SortedInts([s[0]] + t) && multiset([s[0]] + t) == multiset(s) + multiset{x}
  {
    forall j | 0 <= j < |t| ensures s[0] <= t[j] {
      assert t[j] in multiset(s[1..]) + multiset{x} by { assert t[j] in multiset(t); }
      if t[j] != x {
        var k :| 0 <= k < |s[1..]| && s[1..][k] == t[j];
        assert s[k + 1] == t[j];
      }
    }
    SortedCons(s[0], t);
    assert multiset(s) == multiset{s[0]} + multiset(s[1..]) by { assert s == [s[0]] + s[1..]; }
  }

  /** The list comprehension of `get_cfgids`. */
  method MatchingCfgids(listing: seq<string>) returns (ids: seq<int>)
    ensures ids == CfgidValues(listing)
  {
    ids := [];
    var i := 0;
    while i < |listing|
      invariant 0 <= i <= |listing|
      invariant ids == CfgidValues(listing[..i])
    {
      assert listing[..i + 1][..i] == listing[..i];
      if IsCfgidName(listing[i]) {
        ids := ids + [DigitsValue(DropFinalNewline(listing[i]))];
      }
      i := i + 1;
    }
    assert listing[..i] == listing;
  }

  /** `list.sort()` on integers, by insertion into a sorted list. */
  method SortInts(ids: seq<int>) returns (sorted: seq<int>)
    ensures SortedInts(sorted) && multiset(sorted) == multiset(ids)
  {
    sorted := [];
    var i := 0;
    while i < |ids|
      invariant 0 <= i <= |ids|
      invariant SortedInts(sorted) && multiset(sorted) == multiset(ids[..i])
    {
      assert ids[..i + 1] == ids[..i] + [ids[i]];
      sorted := InsertSorted(sorted, ids[i]);
      i := i + 1;
    }
    assert ids[..i] == ids;
  }

  /**
   * `get_cfgids`: the integer values of the entries of the regid's table
   * directory that consist of digits, in ascending order.
   */
  method GetCfgids(st: Store, dataset: string, regid: string) returns (r: Result<seq<int>>)
    ensures r.Err? <==> !IsDir(st, TableDir(dataset, regid))
    ensures r.Err? ==> r.error == NoSuchDirectory(TableDir(dataset, regid))
    ensures r.Ok? ==> SortedInts(r.value)
    ensures r.Ok? ==> multiset(r.value) == multiset(CfgidValues(st.dirs[TableDir(dataset, regid)]))
  {
    var dir := TableDir(dataset, regid);
    if !IsDir(st, dir) {
      return Err(NoSuchDirectory(dir));
    }
    var ids := MatchingCfgids(st.dirs[dir]);
    var sorted := SortInts(ids);
    r := Ok(sorted);
  }

  // ---------------------------------------------------------------------------
  // get_tgtids

  /** `[a-zA-Z0-9]+\.csv`. */
  predicate IsCsvName(s: string)
  {
    |s| > 4 && s[|s| - 4..] == ".csv" && forall i :: 0 <= i < |s| - 4 ==> IsAlnum(s[i])
  }

  /** `^(.+)-[a-zA-Z0-9]+\.csv$` matches `t` with its '-' at position `i`. */
  predicate TgtidAt(t: string, i: int)
  {
    0 < i < |t| && t[i] == '-' && NoNewline(t[..i]) && IsCsvName(t[i + 1..])
  }

  lemma CsvNameHasNoDash(s: string)
    requires IsCsvName(s)
    ensures '-' !in s
  {
    forall k | 0 <= k < |s| ensures s[k] != '-' {
      if k >= |s| - 4 { assert s[k] == s[|s| - 4..][k - (|s| - 4)]; }
    }
  }

  lemma TgtidAtLastDash(t: string, i: int)
    requires TgtidAt(t, i)
    ensures LastIndex(t, '-') == Some(i)
  {
    CsvNameHasNoDash(t[i + 1..]);
    assert t == t[..i] + ['-'] + t[i + 1..];
    LastIndexOfJoin(t[..i], '-', t[i + 1..]);
  }

  /** The target id group of one listing entry, if the entry matches. */
  function TgtidOf(entry: string): (r: Option<string>)
    ensures r.Some? ==> TgtidAt(DropFinalNewline(entry), |r.value|) && r.value == DropFinalNewline(entry)[..|r.value|]
    ensures r.None? ==> forall i :: !TgtidAt(DropFinalNewline(entry), i)
  {
    var t := DropFinalNewline(entry);
    match LastIndex(t, '-')
    case Some(i) =>
      if TgtidAt(t, i) then Some(t[..i])
      else
        NoOtherTgtidSplit(t, i);
        None
    case None =>
      assert forall i :: !TgtidAt(t, i) by {
        forall i | TgtidAt(t, i) ensures false { TgtidAtLastDash(t, i); }
      }
      None
  }

  lemma NoOtherTgtidSplit(t: string, i: int)
    requires LastIndex(t, '-') == Some(i) && !TgtidAt(t, i)
    ensures forall j :: !TgtidAt(t, j)
  {
    forall j | TgtidAt(t, j) ensures false { TgtidAtLastDash(t, j); }
  }

  lemma CsvNameOf(a: string)
    requires a != [] && forall k :: 0 <= k < |a| ==> IsAlnum(a[k])
    ensures IsCsvName(a + ".csv")
  {
    var s := a + ".csv";
    assert s[|s| - 4..] == ".csv";
    assert forall k :: 0 <= k < |s| - 4 ==> s[k] == a[k];
  }

  lemma TgtidOfJoin(p: string, rest: string)
    requires p != "" && NoNewline(p) && IsCsvName(rest)
    ensures TgtidOf(p + "-" + rest) == Some(p)
  {
    var t := p + "-" + rest;
    assert t[|p| + 1..] == rest && t[..|p|] == p;
    assert TgtidAt(t, |p|);
    TgtidAtLastDash(t, |p|);
  }

  /** The file names a target produces are recognised, and give back that target. */
  lemma TgtidOfName(p: string, a: string)
    requires p != "" && NoNewline(p)
    requires a != [] && forall k :: 0 <= k < |a| ==> IsAlnum(a[k])
    ensures TgtidOf(p + "-" + a + ".csv") == Some(p)
    ensures TgtidOf(p + "-" + a + ".csv\n") == Some(p)
  {
    var t := p + "-" + a + ".csv";
    TgtidOfCsvName(p, a);
    assert p + "-" + a + ".csv\n" == t + "\n" by {
      assert ".csv\n" == ".csv" + "\n";
      AppendAssoc(p + "-" + a, ".csv", "\n");
    }
    assert t[|t| - 1] == 'v';
    TgtidOfFinalNewline(t);
  }

  lemma TgtidOfCsvName(p: string, a: string)
    requires p != "" && NoNewline(p)
    requires a != [] && forall k :: 0 <= k < |a| ==> IsAlnum(a[k])
    ensures TgtidOf(p + "-" + a + ".csv") == Some(p)
  {
    CsvNameOf(a);
    AppendAssoc(p + "-", a, ".csv");
    TgtidOfJoin(p, a + ".csv");
  }

  /** A final newline after an entry is ignored. */
  lemma TgtidOfFinalNewline(t: string)
    requires t != [] && t[|t| - 1] != '\n'
    ensures TgtidOf(t + "\n") == TgtidOf(t)
  {
    assert DropFinalNewline(t + "\n") == t;
    assert DropFinalNewline(t) == t;
  }

  /** Some entry of the listing yields target `t`. */
  predicate Listed(listing: seq<string>, t: string)
  {
    exists e :: e in listing && TgtidOf(e) == Some(t)
  }

  lemma ListedSplit(listing: seq<string>, t: string)
    requires listing != []
    ensures Listed(listing, t) <==>
      Listed(listing[..|listing| - 1], t) || TgtidOf(listing[|listing| - 1]) == Some(t)
  {
    var n := |listing| - 1;
    assert listing == listing[..n] + [listing[n]];
    if Listed(listing, t) {
      var e :| e in listing && TgtidOf(e) == Some(t);
      assert e in listing[..n] || e == listing[n];
    }
    if Listed(listing[..n], t) {
      var e :| e in listing[..n] && TgtidOf(e) == Some(t);
      assert e in listing;
    }
  }

  /**
   * The targets of a listing: sorted in Python's string order, each once, and
   * exactly the groups of the entries that match.
   */
  function TgtidList(listing: seq<string>): (r: seq<string>)
    ensures StrictlySorted(r)
    ensures forall t :: t in r <==> Listed(listing, t)
    ensures forall t :: t in r ==> t != ""
  {
    if listing == [] then []
    else
      var n := |listing| - 1;
      var prev := TgtidList(listing[..n]);
      assert forall t :: Listed(listing, t) <==> Listed(listing[..n], t) || TgtidOf(listing[n]) == Some(t) by {
        forall t ensures Listed(listing, t) <==> Listed(listing[..n], t) || TgtidOf(listing[n]) == Some(t) {
          ListedSplit(listing, t);
        }
      }
      match TgtidOf(listing[n])
      case None => prev
      case Some(t) => InsertUnique(prev, t)
  }

  /** `get_tgtids` as a function of the store. */
  function Tgtids(st: Store, dataset: string, regid: Option<string>, cfgid: Option<Cfgid>): (r: Result<seq<string>>)
    ensures r.Ok? ==> StrictlySorted(r.value) && forall t :: t in r.value ==> t != ""
  {
    match CsvDir(dataset, regid, cfgid)
    case Err(e) => Err(e)
    case Ok(dir) =>
      match ListDir(st, dir)
      case Err(e) => Err(e)
      case Ok(listing) => Ok(TgtidList(listing))
  }

  /**
   * `get_tgtids` written out: the groups of the matching entries are gathered in
   * a set, which is then turned into a sorted list.
   */
  method GetTgtids(st: Store, dataset: string, regid: Option<string>, cfgid: Option<Cfgid>) returns (r: Result<seq<string>>)
    ensures r == Tgtids(st, dataset, regid, cfgid)
  {
    var dir :- CsvDir(dataset, regid, cfgid);
    var listing :- ListDir(st, dir);
    var found := MatchedTgtids(listing);
    var sorted := SortedTgtids(found);
    StrictlySortedUnique(sorted, TgtidList(listing));
    r := Ok(sorted);
  }

  /** The loop over the listing: `tgtids.add(m.group(1))` for every entry that matches. */
  method MatchedTgtids(listing: seq<string>) returns (found: set<string>)
    ensures forall t :: t in found <==> Listed(listing, t)
  {
    found := {};
    var i := 0;
    while i < |listing|
      invariant 0 <= i <= |listing|
      invariant forall t :: t in found <==> Listed(listing[..i], t)
    {
      var m := TgtidOf(listing[i]);
      if m.Some? {
        found := found + {m.value};
      }
      forall t | true
        ensures t in found <==> Listed(listing[..i + 1], t)
      {
        ListedStep(listing, i, t);
      }
      i := i + 1;
    }
    assert listing[..i] == listing;
  }

  lemma ListedStep(listing: seq<string>, i: nat, t: string)
    requires i < |listing|
    ensures Listed(listing[..i + 1], t) <==> Listed(listing[..i], t) || TgtidOf(listing[i]) == Some(t)
  {
    assert listing[..i + 1][..i] == listing[..i];
    ListedSplit(listing[..i + 1], t);
  }

  /** `list(tgtids)` then `sort()`: the targets in order, each once. */
  method SortedTgtids(found: set<string>) returns (sorted: seq<string>)
    ensures StrictlySorted(sorted)
    ensures forall t :: t in sorted <==> t in found
  {
    sorted := [];
    var rest := found;
    while rest != {}
      invariant rest <= found
      invariant StrictlySorted(sorted)
      invariant forall t :: t in sorted <==> t in found && t !in rest
      decreases |rest|
    {
      var t :| t in rest;
      sorted := InsertUnique(sorted, t);
      rest := rest - {t};
    }
  }

  // ---------------------------------------------------------------------------
  // The parameter CSV of get_params

  /** `etc/params[/<subdir>]/<name>.csv`. */
  function ParamsPath(subdir: string, name: string): Path
  {
    Join(Join(["etc", "params"], subdir), name + ".csv")
  }

  /** The first candidate that exists, if any. */
  function FirstExisting(st: Store, ps: seq<Path>): (r: Option<Path>)
    ensures r.Some? ==> r.value in ps && Exists(st, r.value)
    ensures r.None? ==> forall p :: p in ps ==> !Exists(st, p)
    ensures |ps| > 0 && Exists(st, ps[0]) ==> r == Some(ps[0])
  {
    if ps == [] then None
    else if Exists(st, ps[0]) then Some(ps[0])
    else
      assert forall p :: p in ps ==> p == ps[0] || p in ps[1..];
      FirstExisting(st, ps[1..])
  }

  /**
   * The search loop as written: both passes of the outer loop build the path
   * from the regid, so the version-less name is never tried.
   */
  function ParamsCsvAsWritten(st: Store, dataset: string, regid: string, unversioned: string): (r: Option<Path>)
    ensures r.Some? ==> Exists(st, r.value) && (r.value == ParamsPath(dataset, regid) || r.value == ParamsPath("", regid))
    ensures r.None? <==> !Exists(st, ParamsPath(dataset, regid)) && !Exists(st, ParamsPath("", regid))
  {
    var candidates := [ParamsPath(dataset, regid), ParamsPath("", regid)];
    FirstExisting(st, candidates + candidates)
  }

  /** The search as intended: the regid, then the regid without its version, each per dataset first. */
  function ParamsCsv(st: Store, dataset: string, regid: string, unversioned: string): (r: Option<Path>)
    ensures r.Some? ==> Exists(st, r.value)
    ensures Exists(st, ParamsPath(dataset, regid)) ==> r == Some(ParamsPath(dataset, regid))
    ensures (!Exists(st, ParamsPath(dataset, regid)) && !Exists(st, ParamsPath("", regid)) &&
             Exists(st, ParamsPath(dataset, unversioned))) ==> r == Some(ParamsPath(dataset, unversioned))
    ensures r.None? <==>
      (!Exists(st, ParamsPath(dataset, regid)) && !Exists(st, ParamsPath("", regid)) &&
       !Exists(st, ParamsPath(dataset, unversioned)) && !Exists(st, ParamsPath("", unversioned)))
  {
    var ps := [ParamsPath(dataset, regid), ParamsPath("", regid),
               ParamsPath(dataset, unversioned), ParamsPath("", unversioned)];
    assert !Exists(st, ps[0]) ==> FirstExisting(st, ps) == FirstExisting(st, ps[1..]);
    assert !Exists(st, ps[1]) ==> FirstExisting(st, ps[1..]) == FirstExisting(st, ps[2..]);
    assert ps[2..][0] == ps[2] && ps[2..][1..] == [ps[3]];
    FirstExisting(st, ps)
  }

  /**
   * When only the version-less parameter file exists, the code as written finds
   * no file (and falls back to the single default configuration), whereas the
   * intended search finds it.
   */
  lemma ParamsCsvFinding(st: Store, dataset: string, regid: string, unversioned: string)
    requires !Exists(st, ParamsPath(dataset, regid)) && !Exists(st, ParamsPath("", regid))
    requires !Exists(st, ParamsPath(dataset, unversioned)) && Exists(st, ParamsPath("", unversioned))
    ensures ParamsCsvAsWritten(st, dataset, regid, unversioned) == None
    ensures ParamsCsv(st, dataset, regid, unversioned) == Some(ParamsPath("", unversioned))
  {
  }

  /** The two searches agree whenever a file named after the regid exists. */
  lemma ParamsCsvAgreeOnRegid(st: Store, dataset: string, regid: string, unversioned: string)
    requires Exists(st, ParamsPath(dataset, regid)) || Exists(st, ParamsPath("", regid))
    ensures ParamsCsvAsWritten(st, dataset, regid, unversioned) == ParamsCsv(st, dataset, regid, unversioned)
  {
  }
}
