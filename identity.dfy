/**
 * The registration identity ("regid"): `toolkit[-command][-version]`, where the
 * version suffix follows a small grammar. Encoding joins the present parts with
 * '-'; decoding takes a trailing version first and then splits the rest at its
 * first '-'.
 */
module Identity {
  import opened Wrappers
  import opened StringUtil

  datatype RegId = RegId(toolkit: string, command: Option<string>, version: Option<string>)

  /** Python truthiness of an optional string: present and non-empty. */
  predicate Given(s: Option<string>) { s.Some? && s.value != "" }

  // ---------------------------------------------------------------------------
  // The version grammar
  //   rev_[0-9a-f]+ | [0-9]+(\.[0-9]+)?(\.[0-9]+)? | dev | develop | master | latest

  predicate IsRevision(v: string)
  {
    |v| > 4 && v[..4] == "rev_" && forall i :: 4 <= i < |v| ==> IsLowerHex(v[i])
  }

  /** The '.'-separated fields of `s` (one field when `s` has no '.'). */
  function Fields(s: string): (r: seq<string>)
    ensures |r| >= 1
    decreases |s|
  {
    match FirstIndex(s, '.')
    case None => [s]
    case Some(i) => [s[..i]] + Fields(s[i + 1..])
  }

  /** One to three non-empty groups of digits separated by '.'. */
  predicate IsNumbered(v: string)
  {
    var groups := Fields(v);
    |groups| <= 3 && forall g :: g in groups ==> AllDigits(g)
  }

  predicate IsTag(v: string)
  {
    v == "dev" || v == "develop" || v == "master" || v == "latest"
  }

  predicate IsVersion(v: string)
  {
    IsRevision(v) || IsNumbered(v) || IsTag(v)
  }

  lemma {:induction false} FieldsCharacters(s: string)
    requires forall g :: g in Fields(s) ==> AllDigits(g)
    ensures s != []
    ensures forall k :: 0 <= k < |s| ==> IsDigit(s[k]) || s[k] == '.'
    decreases |s|
  {
    match FirstIndex(s, '.')
    case None =>
      assert Fields(s) == [s];
      assert s in Fields(s);
    case Some(i) =>
      var rest := s[i + 1..];
      assert Fields(s) == [s[..i]] + Fields(rest);
      assert s[..i] in Fields(s);
      assert forall g :: g in Fields(rest) ==> g in Fields(s);
      FieldsCharacters(rest);
      forall k | 0 <= k < |s| ensures IsDigit(s[k]) || s[k] == '.' {
        if k < i {
          assert s[k] == s[..i][k];
        } else if k > i {
          assert s[k] == rest[k - i - 1];
        }
      }
  }

  /** A version is non-empty and holds neither '-' nor a newline. */
  lemma VersionCharacters(v: string)
    requires IsVersion(v)
    ensures v != [] && '-' !in v && '\n' !in v
  {
    if IsNumbered(v) {
      NumberedCharacters(v);
    } else if IsRevision(v) {
      RevisionCharacters(v);
    } else {
      TagCharacters(v);
    }
  }

  lemma TagCharacters(v: string)
    requires IsTag(v)
    ensures v != [] && '-' !in v && '\n' !in v
  {
    forall k | 0 <= k < |v| ensures 'a' <= v[k] <= 'v' {
      if v == "dev" { assert v[k] in "dev"; }
      else if v == "develop" { assert v[k] in "develop"; }
      else if v == "master" { assert v[k] in "master"; }
      else { assert v[k] in "latest"; }
    }
  }

  lemma NumberedCharacters(v: string)
    requires IsNumbered(v)
    ensures v != [] && '-' !in v && '\n' !in v
  {
    FieldsCharacters(v);
  }

  lemma RevisionCharacters(v: string)
    requires IsRevision(v)
    ensures '-' !in v && '\n' !in v
  {
    forall k | 0 <= k < |v| ensures v[k] != '-' && v[k] != '\n' {
      if k < 4 { assert v[k] == "rev_"[k]; }
    }
  }

  // ---------------------------------------------------------------------------
  // Decoding

  /**
   * `^(.+)-(<version>)$` matches with the '-' at position `i` of `t`, where `t`
   * is the text before a final newline that `$` may skip.
   */
  predicate SplitsAt(t: string, i: int)
  {
    0 < i < |t| && t[i] == '-' && NoNewline(t[..i]) && IsVersion(t[i + 1..])
  }

  /** A split point is always the last '-', since versions hold no '-'. */
  lemma SplitPointIsLastDash(t: string, i: int)
    requires SplitsAt(t, i)
    ensures LastIndex(t, '-') == Some(i)
  {
    VersionCharacters(t[i + 1..]);
    assert t == t[..i] + ['-'] + t[i + 1..];
    LastIndexOfJoin(t[..i], '-', t[i + 1..]);
  }

  /**
   * `split_version`: the base and the version when the version pattern matches,
   * otherwise the whole string and None.
   */
  function SplitVersion(regid: string): (r: (string, Option<string>))
    ensures r.1.Some? ==>
      DropFinalNewline(regid) == r.0 + "-" + r.1.value && r.0 != "" && NoNewline(r.0) && IsVersion(r.1.value)
    ensures r.1.None? ==>
      r.0 == regid && forall i :: !SplitsAt(DropFinalNewline(regid), i)
  {
    var t := DropFinalNewline(regid);
    match LastIndex(t, '-')
    case Some(i) =>
      if SplitsAt(t, i) then
        SplitParts(t, i);
        (t[..i], Some(t[i + 1..]))
      else
        OnlySplitAtLastDash(t, i);
        (regid, None)
    case None =>
      (regid, None)
  }

  lemma SplitParts(t: string, i: int)
    requires 0 <= i < |t| && t[i] == '-'
    ensures t == t[..i] + "-" + t[i + 1..]
  {}

  lemma OnlySplitAtLastDash(t: string, i: int)
    requires LastIndex(t, '-') == Some(i) && !SplitsAt(t, i)
    ensures forall j :: !SplitsAt(t, j)
  {
    forall j | SplitsAt(t, j) ensures false { SplitPointIsLastDash(t, j); }
  }

  /**
   * `split_regid`: the version is taken off first, then the rest is split at its
   * first '-' into toolkit and command, so a command may itself hold '-'.
   */
  function SplitRegid(regid: string): (r: RegId)
    ensures r.version == SplitVersion(regid).1
    ensures '-' !in r.toolkit
    ensures r.command.None? ==> r.toolkit == SplitVersion(regid).0
    ensures r.command.Some? ==> SplitVersion(regid).0 == r.toolkit + "-" + r.command.value
  {
    var base := SplitVersion(regid).0;
    match FirstIndex(base, '-')
    case None => RegId(base, None, SplitVersion(regid).1)
    case Some(i) =>
      SplitParts(base, i);
      RegId(base[..i], Some(base[i + 1..]), SplitVersion(regid).1)
  }

  // ---------------------------------------------------------------------------
  // Encoding

  /** `get_regid`: the toolkit, then each given part after a '-'. */
  function GetRegid(toolkit: string, command: Option<string>, version: Option<string>): (r: string)
    ensures toolkit <= r
    ensures !Given(command) && !Given(version) ==> r == toolkit
    ensures Given(command) ==>
      |r| > |toolkit| + |command.value| && r[|toolkit|..|toolkit| + 1 + |command.value|] == "-" + command.value
    ensures Given(version) ==> |r| > |version.value| && r[|r| - |version.value| - 1..] == "-" + version.value
  {
    var withCommand := if Given(command) then toolkit + "-" + command.value else toolkit;
    if Given(version) then withCommand + "-" + version.value else withCommand
  }

  /** The part after the last '-' of `s`, or all of `s`. */
  function LastSegment(s: string): string
  {
    match LastIndex(s, '-')
    case None => s
    case Some(i) => s[i + 1..]
  }

  /** The last '-'-segment of `s`, a final newline ignored, reads as a version. */
  predicate EndsInVersion(s: string)
  {
    IsVersion(LastSegment(DropFinalNewline(s)))
  }

  lemma LastIndexAppend(p: string, q: string, c: char)
    requires c in q
    ensures LastIndex(p + q, c) == Some(|p| + LastIndex(q, c).value)
  {
    var j := LastIndex(q, c).value;
    var a, b := p + q[..j], q[j + 1..];
    assert q == q[..j] + [c] + b;
    assert p + q == a + [c] + b;
    LastIndexOfJoin(a, c, b);
  }

  lemma NoDashInPrefix(s: string)
    requires '-' !in s
    ensures '-' !in DropFinalNewline(s)
  {
    if DropFinalNewline(s) != s {
      assert forall k :: 0 <= k < |DropFinalNewline(s)| ==> DropFinalNewline(s)[k] == s[k];
    }
  }

  /**
   * Decoding an encoded identity gives back its parts, when the toolkit holds no
   * '-', absent parts are None rather than empty, a version follows the grammar
   * and has a non-empty, newline-free base before it, and, without a version, the
   * command does not itself end in something that reads as a version.
   */
  lemma SplitGetRegid(t: string, c: Option<string>, v: Option<string>)
    requires '-' !in t
    requires c != Some("") && v != Some("")
    requires v.Some? ==> IsVersion(v.value) && NoNewline(t) && (c.None? ==> t != "")
    requires v.Some? && c.Some? ==> NoNewline(c.value)
    requires v.None? && c.Some? ==> !EndsInVersion(c.value)
    ensures SplitRegid(GetRegid(t, c, v)) == RegId(t, c, v)
  {
    if v.Some? {
      SplitWithVersion(t, c, v.value);
    } else if c.Some? {
      SplitWithoutVersion(t, c.value);
    } else {
      NoDashInPrefix(t);
      assert SplitVersion(t) == (t, None);
    }
  }

  lemma SplitWithVersion(t: string, c: Option<string>, ver: string)
    requires '-' !in t && c != Some("")
    requires IsVersion(ver) && NoNewline(t) && (c.None? ==> t != "")
    requires c.Some? ==> NoNewline(c.value)
    ensures SplitRegid(GetRegid(t, c, Some(ver))) == RegId(t, c, Some(ver))
  {
    var base := GetRegid(t, c, None);
    VersionCharacters(ver);
    assert GetRegid(t, c, Some(ver)) == base + "-" + ver;
    assert NoNewline(base) && base != "";
    SplitVersionOfJoin(base, ver);
    if c.Some? {
      FirstIndexOfJoin(t, '-', c.value);
      assert base[..|t|] == t && base[|t| + 1..] == c.value;
    }
  }

  lemma SplitVersionOfJoin(base: string, ver: string)
    requires base != "" && NoNewline(base) && IsVersion(ver)
    ensures SplitVersion(base + "-" + ver) == (base, Some(ver))
  {
    VersionCharacters(ver);
    var s := base + "-" + ver;
    assert DropFinalNewline(s) == s;
    LastIndexOfJoin(base, '-', ver);
    assert s[..|base|] == base && s[|base| + 1..] == ver;
    assert SplitsAt(s, |base|);
  }

  lemma SplitWithoutVersion(t: string, cmd: string)
    requires '-' !in t && cmd != ""
    requires !EndsInVersion(cmd)
    ensures SplitRegid(GetRegid(t, Some(cmd), None)) == RegId(t, Some(cmd), None)
  {
    var s := t + "-" + cmd;
    assert GetRegid(t, Some(cmd), None) == s;
    assert FirstIndex(s, '-') == Some(|t|) && s[..|t|] == t && s[|t| + 1..] == cmd by {
      FirstIndexOfJoin(t, '-', cmd);
    }
    assert SplitVersion(s).1.None? by { NoVersionAfterCommand(t, cmd); }
    SplitRegidUnversioned(s, |t|);
  }

  /** Without a version, `split_regid` cuts at the first '-'. */
  lemma SplitRegidUnversioned(s: string, i: nat)
    requires SplitVersion(s).1.None? && FirstIndex(s, '-') == Some(i)
    ensures SplitRegid(s) == RegId(s[..i], Some(s[i + 1..]), None)
  {
    assert SplitVersion(s) == (s, None);
  }

  lemma NoVersionAfterCommand(t: string, cmd: string)
    requires '-' !in t && cmd != ""
    requires !EndsInVersion(cmd)
    ensures SplitVersion(t + "-" + cmd).1.None?
  {
    var s := t + "-" + cmd;
    assert DropFinalNewline(s) == t + "-" + DropFinalNewline(cmd) by {
      assert s[|s| - 1] == cmd[|cmd| - 1];
    }
    LastSegmentAfterToolkit(t, DropFinalNewline(cmd));
  }

  /** The last '-'-segment of `t-c` is that of `c` when `t` has no '-'. */
  lemma LastSegmentAfterToolkit(t: string, c: string)
    requires '-' !in t
    ensures LastIndex(t + "-" + c, '-').Some?
    ensures LastSegment(t + "-" + c) == LastSegment(c)
  {
    var s := t + "-" + c;
    if '-' in c {
      LastIndexAppend(t + "-", c, '-');
      var j := LastIndex(c, '-').value;
      assert s[|t| + 1 + j + 1..] == c[j + 1..];
    } else {
      LastIndexOfJoin(t, '-', c);
      assert s[|t| + 1..] == c;
    }
  }

  /**
   * Encoding a decoded identity gives back the string, unless decoding met an
   * empty command (as in "mirtk-") or dropped a final newline before a version.
   */
  lemma GetSplitRegid(s: string)
    requires SplitRegid(s).command != Some("")
    requires SplitRegid(s).version.Some? ==> DropFinalNewline(s) == s
    ensures GetRegid(SplitRegid(s).toolkit, SplitRegid(s).command, SplitRegid(s).version) == s
  {
    VersionIsGiven(SplitRegid(s).version);
  }

  lemma VersionIsGiven(v: Option<string>)
    requires v.Some? ==> IsVersion(v.value)
    ensures v.Some? ==> Given(v)
  {
    if v.Some? { VersionCharacters(v.value); }
  }

  lemma FieldsOfJoin(a: string, b: string)
    requires '.' !in a
    ensures Fields(a + "." + b) == [a] + Fields(b)
  {
    FirstIndexOfJoin(a, '.', b);
    var s := a + "." + b;
    assert s[..|a|] == a && s[|a| + 1..] == b;
  }

  /** "2.0.0" is a numbered version. */
  lemma NumberedExample()
    ensures IsVersion("2.0.0")
  {
    assert Fields("0") == ["0"];
    FieldsOfJoin("0", "0");
    assert "0" + "." + "0" == "0.0";
    FieldsOfJoin("2", "0.0");
    assert "2" + "." + "0.0" == "2.0.0";
    assert Fields("2.0.0") == ["2", "0", "0"];
  }

  /** Decoding the identity the toolkit's documentation uses as its example. */
  lemma DecodingExample()
    ensures SplitRegid("mirtk-ireg-2.0.0") == RegId("mirtk", Some("ireg"), Some("2.0.0"))
  {
    assert GetRegid("mirtk", Some("ireg"), Some("2.0.0")) == "mirtk-ireg-2.0.0" by {
      assert "mirtk" + "-" + "ireg" == "mirtk-ireg";
      assert "mirtk-ireg" + "-" + "2.0.0" == "mirtk-ireg-2.0.0";
    }
    NumberedExample();
    SplitWithVersion("mirtk", Some("ireg"), "2.0.0");
  }

  /**
   * A revision version after a command that itself holds a '-': the version
   * is taken from the end, and the rest is split at its first '-' only.
   */
  lemma DecodingRevisionExample()
    ensures SplitRegid("niftk-reg-aladin-rev_1a") == RegId("niftk", Some("reg-aladin"), Some("rev_1a"))
  {
    RevisionJoinExample();
    RevisionPartsExample();
    SplitWithVersion("niftk", Some("reg-aladin"), "rev_1a");
  }

  lemma RevisionJoinExample()
    ensures GetRegid("niftk", Some("reg-aladin"), Some("rev_1a")) == "niftk-reg-aladin-rev_1a"
  {
    assert "niftk" + "-" + "reg-aladin" == "niftk-reg-aladin";
    assert "niftk-reg-aladin" + "-" + "rev_1a" == "niftk-reg-aladin-rev_1a";
  }

  lemma RevisionPartsExample()
    ensures IsVersion("rev_1a") && '-' !in "niftk" && NoNewline("niftk") && NoNewline("reg-aladin")
  {
    assert IsRevision("rev_1a") by {
      assert "rev_1a"[..4] == "rev_";
    }
  }
}
