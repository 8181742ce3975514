/**
 * Selector arguments of the query functions. Each dimension (measure, dataset,
 * regid, toolkit, command, version, tgtid) is absent (None), one string, a list
 * of strings or a dictionary; `cfgid` also takes integers. Python dictionaries
 * keep insertion order, so a dictionary is a sequence of key/value pairs.
 */
module Selectors {
  import opened Wrappers
  import opened StringUtil
  import opened Tables
  import Identity

  datatype Sel = Absent | One(s: string) | Many(xs: seq<string>) | Dict(entries: seq<(string, Sel)>)

  /** Python truthiness: None, "" and empty containers are false. */
  predicate Truthy(s: Sel)
  {
    match s
    case Absent => false
    case One(x) => x != ""
    case Many(xs) => xs != []
    case Dict(es) => es != []
  }

  /** `is_iterable`: a container other than a string. */
  predicate IsIterable(s: Sel): (r: bool)
    ensures r <==> !(s.Absent? || s.One?)
  {
    s.Many? || s.Dict?
  }

  /** The elements a `for` loop visits: list items, or dictionary keys. */
  function Items(s: Sel): seq<string>
    requires IsIterable(s)
  {
    if s.Many? then s.xs else Keys(s.entries)
  }

  /** A non-iterable selector as the optional string it stands for. */
  function OptionOf(s: Sel): Option<string>
    requires !IsIterable(s)
  {
    if s.One? then Some(s.s) else None
  }

  // ---------------------------------------------------------------------------
  // Ordered dictionaries

  function Keys<V>(es: seq<(string, V)>): (r: seq<string>)
    ensures |r| == |es| && forall i :: 0 <= i < |es| ==> r[i] == es[i].0
  {
    if es == [] then [] else [es[0].0] + Keys(es[1..])
  }

  /** `d[k]`: KeyError when the key is missing. */
  function Lookup<V>(es: seq<(string, V)>, k: string): (r: Result<V>)
    ensures r.Err? <==> k !in Keys(es)
    ensures r.Err? ==> r.error == NoSuchKey(k)
  {
    if es == [] then Err(NoSuchKey(k))
    else if es[0].0 == k then Ok(es[0].1)
    else Lookup(es[1..], k)
  }

  /** `d[k] = v`: an existing key keeps its place, a new one goes last. */
  function Put<V>(es: seq<(string, V)>, k: string, v: V): seq<(string, V)>
  {
    if es == [] then [(k, v)]
    else if es[0].0 == k then [(k, v)] + es[1..]
    else [es[0]] + Put(es[1..], k, v)
  }

  /** `d[k] = v` keeps the keys in place and appends a new one. */
  lemma {:induction false} PutKeys<V>(es: seq<(string, V)>, k: string, v: V)
    ensures Keys(Put(es, k, v)) == if k in Keys(es) then Keys(es) else Keys(es) + [k]
  {
    if es != [] {
      if es[0].0 == k {
        assert Keys([(k, v)] + es[1..]) == [k] + Keys(es[1..]);
      } else {
        PutKeys(es[1..], k, v);
        var rest := Keys(es[1..]);
        assert Keys(es) == [es[0].0] + rest;
        assert Keys([es[0]] + Put(es[1..], k, v)) == [es[0].0] + Keys(Put(es[1..], k, v));
        assert (k in Keys(es)) == (k in rest);
        if k !in rest {
          AppendAssoc([es[0].0], rest, [k]);
        }
      }
    }
  }

  /** After `d[k] = v`, `d[k]` is `v` and every other key reads as before. */
  lemma {:induction false} PutLookup<V>(es: seq<(string, V)>, k: string, v: V, k': string)
    ensures Lookup(Put(es, k, v), k') == if k' == k then Ok(v) else Lookup(es, k')
  {
    if es != [] && es[0].0 != k {
      PutLookup(es[1..], k, v, k');
      var t := Put(es[1..], k, v);
      assert ([es[0]] + t)[1..] == t;
    }
  }

  /** The assignments `d[k] = v` for the pairs of `ps`, in order. */
  function PutAll<V>(base: seq<(string, V)>, ps: seq<(string, V)>): seq<(string, V)>
  {
    if ps == [] then base else Put(PutAll(base, ps[..|ps| - 1]), ps[|ps| - 1].0, ps[|ps| - 1].1)
  }

  /** The value of the last pair with key `k`. */
  function LastValue<V>(ps: seq<(string, V)>, k: string): Option<V>
  {
    if ps == [] then None
    else if ps[|ps| - 1].0 == k then Some(ps[|ps| - 1].1)
    else LastValue(ps[..|ps| - 1], k)
  }

  /** After a run of assignments the last one written to a key decides its value. */
  lemma {:induction false} LastWriteWins<V>(base: seq<(string, V)>, ps: seq<(string, V)>, k: string)
    ensures Lookup(PutAll(base, ps), k) ==
      if LastValue(ps, k).Some? then Ok(LastValue(ps, k).value) else Lookup(base, k)
  {
    if ps != [] {
      LastWriteWins(base, ps[..|ps| - 1], k);
      PutLookup(PutAll(base, ps[..|ps| - 1]), ps[|ps| - 1].0, ps[|ps| - 1].1, k);
    }
  }

  lemma {:induction false} LastValueFound<V>(ps: seq<(string, V)>, i: nat)
    requires i < |ps|
    requires forall j :: i < j < |ps| ==> ps[j].0 != ps[i].0
    ensures LastValue(ps, ps[i].0) == Some(ps[i].1)
  {
    if i < |ps| - 1 {
      LastValueFound(ps[..|ps| - 1], i);
    }
  }

  lemma {:induction false} LastValueMissing<V>(ps: seq<(string, V)>, k: string)
    requires forall j :: 0 <= j < |ps| ==> ps[j].0 != k
    ensures LastValue(ps, k) == None
  {
    if ps != [] {
      LastValueMissing(ps[..|ps| - 1], k);
    }
  }

  lemma PutAllAppend<V>(base: seq<(string, V)>, ps: seq<(string, V)>, p: (string, V))
    ensures PutAll(base, ps + [p]) == Put(PutAll(base, ps), p.0, p.1)
  {
    assert (ps + [p])[..|ps|] == ps;
  }

  // ---------------------------------------------------------------------------
  // Configuration ids

  /** A cfgid value: an integer, a string, or any other object (truthiness and int() given). */
  datatype Cfgid = IntId(n: int) | StrId(s: string) | OtherId(truthy: bool, asInt: Option<int>)

  datatype CfgSel = NoCfg | CfgOne(id: Cfgid) | CfgMany(ids: seq<Cfgid>) | CfgDict(entries: seq<(string, CfgSel)>)

  predicate CfgidTruthy(c: Cfgid)
  {
    match c
    case IntId(n) => n != 0
    case StrId(s) => s != ""
    case OtherId(t, _) => t
  }

  predicate CfgIsIterable(c: CfgSel) { c.CfgMany? || c.CfgDict? }

  function CfgItems(c: CfgSel): (r: seq<Cfgid>)
    requires CfgIsIterable(c)
    ensures c.CfgDict? ==> |r| == |c.entries| && forall i :: 0 <= i < |r| ==> r[i] == StrId(c.entries[i].0)
  {
    if c.CfgMany? then c.ids
    else seq(|c.entries|, i requires 0 <= i < |c.entries| => StrId(c.entries[i].0))
  }

  /** A non-iterable cfgid argument: None or one value. */
  function CfgOption(c: CfgSel): Option<Cfgid>
    requires !CfgIsIterable(c)
  {
    if c.CfgOne? then Some(c.id) else None
  }

  /** `int(cfgid)`. */
  function CfgidInt(c: Cfgid): (r: Result<int>)
    ensures c.IntId? ==> r == Ok(c.n)
    ensures c.StrId? ==> (r.Ok? <==> ParseInt(c.s).Some?)
  {
    match c
    case IntId(n) => Ok(n)
    case StrId(s) => (match ParseInt(s) case Some(n) => Ok(n) case None => Err(NotAnInteger(s)))
    case OtherId(_, v) => (match v case Some(n) => Ok(n) case None => Err(NotConvertible))
  }

  /** Truncation toward zero, as `int()` does on a float. */
  function Truncate(x: real): (r: int)
    ensures x >= 0.0 ==> r as real <= x < r as real + 1.0
    ensures x < 0.0 ==> r as real - 1.0 < x <= r as real
  {
    if x >= 0.0 then x.Floor else -((-x).Floor)
  }

  /** A table cell used as a cfgid value (a bool is an int in Python). */
  function CellCfgid(c: Cell): Cfgid
  {
    match c
    case Int(n) => IntId(n)
    case Bool(b) => IntId(if b then 1 else 0)
    case Str(s) => StrId(s)
    case Real(x) => OtherId(x != 0.0, Some(Truncate(x)))
    case Null => OtherId(true, None)
  }

  // ---------------------------------------------------------------------------
  // Queries

  /** The arguments of one query call. */
  datatype Query = Query(
    measure: Sel, dataset: Sel, regid: Sel, toolkit: Sel,
    command: Sel, version: Sel, cfgid: CfgSel, tgtid: Sel)

  function Rank(s: Sel): nat { if IsIterable(s) then 1 else 0 }

  function CfgRank(c: CfgSel): nat { if CfgIsIterable(c) then 1 else 0 }

  /** A falsy tgtid is replaced by the listed targets, so it ranks between a list and a name. */
  function TgtRank(s: Sel): nat
  {
    if IsIterable(s) && Truthy(s) then 2 else if Truthy(s) then 0 else 1
  }

  /**
   * How far a query is from being all-scalar, dimension by dimension in the
   * order the functions expand them; every recursive call lowers it.
   */
  function Weight(q: Query): nat
  {
    2187 * Rank(q.measure) + 729 * Rank(q.dataset) + 243 * Rank(q.regid) + 81 * Rank(q.toolkit)
    + 27 * Rank(q.command) + 9 * Rank(q.version) + 3 * CfgRank(q.cfgid) + TgtRank(q.tgtid)
  }

  // ---------------------------------------------------------------------------
  // The nested regid dictionary

  /** `command[tk]` for one entry of the regid dictionary: the inner keys, or the value itself. */
  function CommandOf(v: Sel): Sel
  {
    if v.Dict? then Many(Keys(v.entries)) else v
  }

  /** The `command` assignments of the flattening loop, in order. */
  function CommandPairs(es: seq<(string, Sel)>): (r: seq<(string, Sel)>)
    ensures |r| == |es| && forall i :: 0 <= i < |es| ==> r[i] == (es[i].0, CommandOf(es[i].1))
  {
    seq(|es|, i requires 0 <= i < |es| => (es[i].0, CommandOf(es[i].1)))
  }

  /** The `version` assignments made for one toolkit entry. */
  function InnerPairs(tk: string, v: Sel): (r: seq<(string, Sel)>)
    ensures !v.Dict? ==> r == []
    ensures v.Dict? ==> |r| == |v.entries| && forall j :: 0 <= j < |r| ==>
      r[j] == (Identity.GetRegid(tk, Some(v.entries[j].0), None), v.entries[j].1)
  {
    if v.Dict? then
      seq(|v.entries|, j requires 0 <= j < |v.entries| =>
        (Identity.GetRegid(tk, Some(v.entries[j].0), None), v.entries[j].1))
    else []
  }

  /** The `version` assignments of the flattening loop, in order. */
  function VersionPairs(es: seq<(string, Sel)>): seq<(string, Sel)>
  {
    if es == [] then [] else VersionPairs(es[..|es| - 1]) + InnerPairs(es[|es| - 1].0, es[|es| - 1].1)
  }

  /** The query after a regid dictionary has been turned into toolkit, command and version lookups. */
  function Flattened(q: Query): (r: Query)
    requires q.regid.Dict?
    ensures r.regid == Absent && r.toolkit == Many(Keys(q.regid.entries))
    ensures r.command.Dict? && r.version.Dict?
    ensures r.measure == q.measure && r.dataset == q.dataset && r.cfgid == q.cfgid && r.tgtid == q.tgtid
  {
    var es := q.regid.entries;
    q.(regid := Absent, toolkit := Many(Keys(es)), command := Dict(FlatCommands(es)), version := Dict(FlatVersions(es)))
  }

  /** The `command` dictionary the flattening loop builds, one toolkit entry at a time. */
  function FlatCommands(es: seq<(string, Sel)>): seq<(string, Sel)>
  {
    if es == [] then [] else Put(FlatCommands(es[..|es| - 1]), es[|es| - 1].0, CommandOf(es[|es| - 1].1))
  }

  /** The `version` dictionary the flattening loop builds, one toolkit entry at a time. */
  function FlatVersions(es: seq<(string, Sel)>): seq<(string, Sel)>
  {
    if es == [] then [] else PutAll(FlatVersions(es[..|es| - 1]), InnerPairs(es[|es| - 1].0, es[|es| - 1].1))
  }

  /** The command dictionary is the run of all `command[tk]` assignments. */
  lemma {:induction false} FlatCommandsAll(es: seq<(string, Sel)>)
    ensures FlatCommands(es) == PutAll([], CommandPairs(es))
    decreases |es|
  {
    if es != [] {
      var n := |es| - 1;
      FlatCommandsAll(es[..n]);
      FlattenStep(es, n);
      assert es[..n + 1] == es;
      PutAllAppend([], CommandPairs(es[..n]), (es[n].0, CommandOf(es[n].1)));
    }
  }

  /** The version dictionary is the run of all `version[get_regid(tk, cmd)]` assignments. */
  lemma {:induction false} FlatVersionsAll(es: seq<(string, Sel)>)
    ensures FlatVersions(es) == PutAll([], VersionPairs(es))
    decreases |es|
  {
    if es != [] {
      var n := |es| - 1;
      FlatVersionsAll(es[..n]);
      PutAllConcat([], VersionPairs(es[..n]), InnerPairs(es[n].0, es[n].1));
    }
  }

  /** Each toolkit key maps to its inner command keys, or to its own value when that is not a dictionary. */
  lemma FlattenedCommand(q: Query, i: nat)
    requires q.regid.Dict? && i < |q.regid.entries|
    requires forall j :: i < j < |q.regid.entries| ==> q.regid.entries[j].0 != q.regid.entries[i].0
    ensures Lookup(Flattened(q).command.entries, q.regid.entries[i].0) == Ok(CommandOf(q.regid.entries[i].1))
  {
    var es := q.regid.entries;
    FlatCommandsAll(es);
    LastWriteWins([], CommandPairs(es), es[i].0);
    LastValueFound(CommandPairs(es), i);
  }

  /**
   * The version table holds, under `get_regid(tk, cmd)`, the value the last
   * assignment to that key stored, and has no other keys.
   */
  lemma FlattenedVersion(q: Query, key: string)
    requires q.regid.Dict?
    ensures Lookup(Flattened(q).version.entries, key) ==
      match LastValue(VersionPairs(q.regid.entries), key)
      case Some(v) => Ok(v)
      case None => Err(NoSuchKey(key))
  {
    FlatVersionsAll(q.regid.entries);
    LastWriteWins([], VersionPairs(q.regid.entries), key);
  }

  /** Every version assignment comes from a command key inside a toolkit's dictionary. */
  lemma {:induction false} VersionPairsFrom(es: seq<(string, Sel)>, p: (string, Sel))
    requires p in VersionPairs(es)
    ensures exists i, j :: 0 <= i < |es| && es[i].1.Dict? && 0 <= j < |es[i].1.entries| &&
                           p == (Identity.GetRegid(es[i].0, Some(es[i].1.entries[j].0), None), es[i].1.entries[j].1)
  {
    var n := |es| - 1;
    var inner := InnerPairs(es[n].0, es[n].1);
    if p in VersionPairs(es[..n]) {
      VersionPairsFrom(es[..n], p);
      var i, j :| 0 <= i < |es[..n]| && es[..n][i].1.Dict? && 0 <= j < |es[..n][i].1.entries| &&
        p == (Identity.GetRegid(es[..n][i].0, Some(es[..n][i].1.entries[j].0), None), es[..n][i].1.entries[j].1);
      assert es[..n][i] == es[i];
    } else {
      assert p in inner;
      var j :| 0 <= j < |inner| && inner[j] == p;
      assert es[n].1.Dict?;
    }
  }

  lemma {:induction false} PutAllConcat<V>(base: seq<(string, V)>, ps: seq<(string, V)>, qs: seq<(string, V)>)
    ensures PutAll(base, ps + qs) == PutAll(PutAll(base, ps), qs)
    decreases |qs|
  {
    if qs == [] {
      assert ps + qs == ps;
    } else {
      var n := |qs| - 1;
      assert ps + qs == (ps + qs[..n]) + [qs[n]];
      PutAllAppend(base, ps + qs[..n], qs[n]);
      PutAllConcat(base, ps, qs[..n]);
      PutAllAppend(PutAll(base, ps), qs[..n], qs[n]);
      assert qs == qs[..n] + [qs[n]];
    }
  }

  lemma FlattenStep(es: seq<(string, Sel)>, i: nat)
    requires i < |es|
    ensures CommandPairs(es[..i + 1]) == CommandPairs(es[..i]) + [(es[i].0, CommandOf(es[i].1))]
    ensures VersionPairs(es[..i + 1]) == VersionPairs(es[..i]) + InnerPairs(es[i].0, es[i].1)
  {
    assert es[..i + 1][..i] == es[..i];
  }

  lemma InnerStep(tk: string, inner: seq<(string, Sel)>, j: nat)
    requires j < |inner|
    ensures InnerPairs(tk, Dict(inner))[..j + 1] ==
      InnerPairs(tk, Dict(inner))[..j] + [(Identity.GetRegid(tk, Some(inner[j].0), None), inner[j].1)]
  {
    var pairs := InnerPairs(tk, Dict(inner));
    assert pairs[j] == (Identity.GetRegid(tk, Some(inner[j].0), None), inner[j].1);
  }

  /** The inner loop: `version[get_regid(tk, cmd)] = value` for each command of one toolkit. */
  method PutVersions(versions: seq<(string, Sel)>, tk: string, inner: seq<(string, Sel)>) returns (r: seq<(string, Sel)>)
    ensures r == PutAll(versions, InnerPairs(tk, Dict(inner)))
  {
    var pairs := InnerPairs(tk, Dict(inner));
    r := versions;
    var j := 0;
    while j < |inner|
      invariant 0 <= j <= |inner|
      invariant r == PutAll(versions, pairs[..j])
    {
      var key := Identity.GetRegid(tk, Some(inner[j].0), None);
      InnerStep(tk, inner, j);
      PutAllAppend(versions, pairs[..j], (key, inner[j].1));
      r := Put(r, key, inner[j].1);
      j := j + 1;
    }
    assert pairs[..j] == pairs;
  }

  /**
   * The flattening loop written out: for each toolkit, `command[tk]` is set, and
   * for a dictionary value every inner command adds `version[get_regid(tk, cmd)]`.
   */
  method FlattenRegidMap(es: seq<(string, Sel)>) returns (toolkits: seq<string>, commands: seq<(string, Sel)>, versions: seq<(string, Sel)>)
    ensures toolkits == Keys(es)
    ensures commands == FlatCommands(es)
    ensures versions == FlatVersions(es)
  {
    toolkits := Keys(es);
    commands, versions := [], [];
    var i := 0;
    while i < |es|
      invariant 0 <= i <= |es|
      invariant commands == FlatCommands(es[..i])
      invariant versions == FlatVersions(es[..i])
    {
      var (tk, value) := es[i];
      assert es[..i + 1][..i] == es[..i];
      if value.Dict? {
        commands := Put(commands, tk, Many(Keys(value.entries)));
        versions := PutVersions(versions, tk, value.entries);
      } else {
        commands := Put(commands, tk, value);
      }
      i := i + 1;
    }
    assert es[..i] == es;
  }
}
