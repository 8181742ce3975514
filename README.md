# MIRTK REPEAT result queries, modelled in Dafny

This project models the query layer of the REPEAT registration-evaluation
scripts, `lib/python/mirtk/repeat.py`. The layer reads evaluation results
that the registration runs leave as CSV files below `var/table/<dataset>/<regid>[/<cfgid>]`.
It also reads parameter tables below `etc/params` and label taxonomies below `etc/dataset`.
It assembles these files into tables. The model covers the following parts:

- **Registration identifiers** (`identity.dfy`):
  - `split_version`, `split_regid` and `get_regid`;
  - the version grammar (`rev_<hex>`, one to three dot-separated digit groups, `dev`, `develop`, `master`, `latest`);
  - the round trip `split_regid(get_regid(t, c, v)) == (t, c, v)`.
- **Naming helpers** (`naming.dfy`):
  - `cfgidstr`, zero-padded to four digits;
  - `get_csvdir`;
  - `get_cfgids` and `get_tgtids` over a directory listing;
  - the search for the parameter table used by `get_params`.
- **Selectors** (`selectors.dfy`): the arguments of the query functions. Each one is absent, a scalar, a list, or an ordered dictionary; they are bundled as a `Query`. This file also has the flattening of a nested `regid` dictionary into toolkit, command and version lookups.
- **Tables** (`tables.dfy`): a DataFrame is modelled as ordered column names plus rows that map column names to cells. The file models `pd.concat`, `insert`, `rename`, `assign` and `del`.
- **The filesystem** (`store.dfy`): a `Store` value holds the directory listings and the parsed CSV files below the repository root. The query functions take it as an input.
- **Leaf fragments** (`loader.dfy`): what each query function reads once every selector is a scalar. The identity columns are inserted in their fixed order, with `cfgid` only when truthy. The `time` columns are renamed. A missing file gives an empty table.
- **The recursive broadcast** (`resolver.dfy`) of `get_params`, `read_average_measures` and `read_measurements`:
  - one call is a `Peel` step: either validation fails, or the first non-scalar selector is expanded, or the leaf is read;
  - the result is the concatenation of the sub-results, in order;
  - the method `Read` carries out the `pd.concat` loops and is proved equal to the recursive definition `Resolved`.
- **`read_results`** (`results.dfy`):
  - the same broadcast, merging the sub-results measure by measure;
  - cfgid resolution: `affine`, a dictionary, a list or a scalar, or the parameter sets whose directory exists;
  - per-measure post-processing: `pctexcl`, the `dsc` srcid cut and melt, and dropping self-comparisons.
- **Label groups** (`labelgroups.dfy`) in `average_overlap` and `average_group_overlap`:
  - building the label-to-group map from a dataset's taxonomy;
  - tagging each row with `ingroup` or `group`;
  - the in-group filter.

Every loop of the original (the `pd.concat` loops, the `dfs` merge loop, the
label-map loops, the per-dataset tagging loop) is a method. Its postcondition
equates its result with a recursive function. The source's promises are then
proved about that function as lemmas. A DataFrame is a value, so the in-place
pandas updates (`insert`, `rename(inplace=True)`, `del`, `df.loc[...] = ...`)
are functions that return the updated table (`Tables.Insert`, `Tables.Rename`,
`Tables.DropColumn`, `Tables.SetColumn`), and the variable holding the table is
reassigned.

The query functions are modelled with the two defects listed under
"## Findings" corrected: result directories are built with `Naming.CsvDir`,
and the parameter table is found with `Naming.ParamsCsv`. What the code as
written does instead is listed under "## Left out".

Python's exceptions are the `Fault` values of a `Result`:
- `ValueError` for missing arguments, a bad cfgid type, or `int()` on text that is not an integer;
- `KeyError`, `TypeError` and `NameError`;
- `FileNotFoundError` for `os.listdir` or `pd.read_csv`;
- a missing column.

## Model

| member | source | states |
|---|---|---|
| Identity.SplitVersion | lib/python/mirtk/repeat.py:23-28 | a version is split off only when the regid (minus one final newline, as `$` allows) is `<non-empty>-<version>` with a grammar-valid version; otherwise the whole regid and None come back |
| Identity.SplitPointIsLastDash | lib/python/mirtk/repeat.py:25 | the greedy `(.+)` makes the split happen at the last `-` |
| Identity.OnlySplitAtLastDash | lib/python/mirtk/repeat.py:25 | when the segment after the last `-` is not a version, no split point exists at all |
| Identity.VersionCharacters | lib/python/mirtk/repeat.py:25 | a grammar-valid version is non-empty and holds neither `-` nor a newline |
| Identity.NumberedExample | lib/python/mirtk/repeat.py:25 | `2.0.0` matches the version grammar |
| Identity.SplitRegid | lib/python/mirtk/repeat.py:31-38 | the version is the one `split_version` finds; the toolkit has no `-`; toolkit and command, joined by `-`, give back the version-less part |
| Identity.DecodingExample | lib/python/mirtk/repeat.py:31-38 | `mirtk-ireg-2.0.0` decodes to toolkit `mirtk`, command `ireg`, version `2.0.0` |
| Identity.DecodingRevisionExample | lib/python/mirtk/repeat.py:31-38 | `niftk-reg-aladin-rev_1a` decodes to toolkit `niftk`, command `reg-aladin`, version `rev_1a`: the version comes off the end and the rest splits at its first `-` only |
| Identity.GetRegid | lib/python/mirtk/repeat.py:41-48 | the toolkit comes first; with neither a truthy command nor a truthy version the regid is the toolkit; a truthy command follows the toolkit after a `-`; a truthy version ends the regid after a `-` |
| Identity.SplitGetRegid | lib/python/mirtk/repeat.py:23-48 | round trip: decoding an encoded identifier gives back toolkit, command and version, under the conditions stated (dash-free toolkit, valid version, or a command whose last segment is no version) |
| Identity.SplitWithVersion | lib/python/mirtk/repeat.py:23-48 | the round trip when a version is given |
| Identity.SplitWithoutVersion | lib/python/mirtk/repeat.py:23-48 | the round trip without version, for a command whose last segment is not a version |
| Identity.NoVersionAfterCommand | lib/python/mirtk/repeat.py:23-28 | `toolkit-command` is not split when the command's last segment is not a version |
| Identity.GetSplitRegid | lib/python/mirtk/repeat.py:31-48 | the other round trip: encoding the decoded parts gives back the identifier, unless decoding met an empty command (`mirtk-`) or skipped a final newline before a version |
| Identity.VersionIsGiven | lib/python/mirtk/repeat.py:46-47 | a valid version is truthy, so `get_regid` appends it |
| Naming.CfgidStr | lib/python/mirtk/repeat.py:51-58 | an int becomes at least four characters that parse back to it (exactly four digits for 0..9999); a string is returned unchanged; any other value raises ValueError |
| Naming.CfgidStrInjective | lib/python/mirtk/repeat.py:51-58 | distinct ints give distinct cfgid names |
| Naming.CsvDirAsWritten | lib/python/mirtk/repeat.py:61-66 | as written, the path is `var/table/<dataset>/<regid>` for a falsy cfgid, and every truthy cfgid fails |
| Naming.CsvDir | lib/python/mirtk/repeat.py:61-66 | the intended path: the table directory, plus the cfgid's name when it is truthy; a cfgid of another type raises; a regid of None raises TypeError |
| Naming.CsvDirFinding | lib/python/mirtk/repeat.py:64-65 | every non-zero int cfgid raises NameError as written and gives the zero-padded subdirectory as intended |
| Naming.CsvDirAgreesWithoutCfgid | lib/python/mirtk/repeat.py:61-66 | without a truthy cfgid the written and intended paths agree |
| Naming.InsertSorted | lib/python/mirtk/repeat.py:73 | inserting into a sorted list keeps it sorted and adds exactly the element |
| Naming.MatchingCfgids | lib/python/mirtk/repeat.py:71-72 | the loop collects `int(d)` of exactly the all-digit entries, in listing order |
| Naming.SortInts | lib/python/mirtk/repeat.py:73 | `sort()` gives a sorted permutation |
| Naming.GetCfgids | lib/python/mirtk/repeat.py:69-74 | the cfgids are the sorted values of the all-digit entries; a missing directory raises FileNotFoundError |
| Naming.TgtidOf | lib/python/mirtk/repeat.py:80-85 | an entry matches `^(.+)-[a-zA-Z0-9]+\.csv$` exactly when its prefix before the last `-` is non-empty and followed by an alphanumeric `.csv` name; the target id is that prefix |
| Naming.NoOtherTgtidSplit | lib/python/mirtk/repeat.py:80 | no split other than at the last `-` can match |
| Naming.TgtidOfName | lib/python/mirtk/repeat.py:78-83 | `p-<alnum>.csv` (with or without a final newline) yields `p` |
| Naming.ListedSplit | lib/python/mirtk/repeat.py:82-85 | a target id is found in a listing iff it is found in its last entry or in the rest |
| Naming.TgtidList | lib/python/mirtk/repeat.py:79-88 | the result is strictly sorted (so duplicate-free), non-empty strings, and holds exactly the target ids of the listing's entries |
| Naming.Tgtids | lib/python/mirtk/repeat.py:77-88 | `get_tgtids`: strictly sorted non-empty ids of the result directory |
| Naming.GetTgtids | lib/python/mirtk/repeat.py:77-88 | the set-building loop and the sort compute `Tgtids` |
| Naming.MatchedTgtids | lib/python/mirtk/repeat.py:77-83 | after the loop the set holds exactly the target ids of the matching entries |
| Naming.SortedTgtids | lib/python/mirtk/repeat.py:84-85 | the sorted list is strictly increasing and holds exactly the set's elements |
| Naming.FirstExisting | lib/python/mirtk/repeat.py:143-153 | the first existing candidate is chosen; none when no candidate exists |
| Naming.ParamsCsvFinding | lib/python/mirtk/repeat.py:143-148 | when only the version-less table exists, the code as written finds nothing and the intended search finds it |
| Naming.ParamsCsvAgreeOnRegid | lib/python/mirtk/repeat.py:143-153 | when a table named after the regid exists, written and intended searches agree |
| Naming.ParamsCsvAsWritten | lib/python/mirtk/repeat.py:143-153 | the search as written: a found table exists and is one of the two regid-named candidates; nothing is found exactly when neither exists, whatever the version-less name |
| Naming.ParamsCsv | lib/python/mirtk/repeat.py:143-153 | the intended search: a found table exists; the dataset's regid-named table wins; failing both regid-named tables, the dataset's version-less table is taken; nothing is found exactly when none of the four candidates exists |
| Selectors.Lookup | lib/python/mirtk/repeat.py:126 | a dictionary lookup fails with KeyError exactly for a missing key |
| Selectors.IsIterable | lib/python/mirtk/repeat.py:13-15 | None and a string are not iterable; lists and dictionaries are |
| Selectors.PutKeys | lib/python/mirtk/repeat.py:113 | assignment keeps the key order, appending a new key at the end |
| Selectors.PutLookup | lib/python/mirtk/repeat.py:113 | after `d[k] = v`, `d[k]` is `v` and every other key reads as before |
| Selectors.LastWriteWins | lib/python/mirtk/repeat.py:111-113 | after a series of assignments each key holds its last assigned value |
| Selectors.CfgidInt | lib/python/mirtk/repeat.py:161-163 | `int(cfgid)`: an int is itself, a string converts iff it is a decimal numeral |
| Selectors.Flattened | lib/python/mirtk/repeat.py:103-116 | a regid dictionary becomes regid None, toolkit the list of keys, command and version dictionaries; other arguments unchanged |
| Selectors.FlattenedCommand | lib/python/mirtk/repeat.py:107-115 | `command[tk]` is the inner key list of a nested dictionary, or the value itself otherwise |
| Selectors.FlattenedVersion | lib/python/mirtk/repeat.py:111-113 | `version[get_regid(tk, cmd)]` holds the last value assigned for that key, and a key never assigned raises KeyError |
| Selectors.FlattenRegidMap | lib/python/mirtk/repeat.py:103-116 | the loops produce exactly the flattened toolkit list and command and version dictionaries |
| Selectors.PutVersions | lib/python/mirtk/repeat.py:111-113 | the inner loop assigns every `(get_regid(tk, cmd), value)` pair in order |
| Tables.Union | lib/python/mirtk/repeat.py:101 | `pd.concat` columns: the first table's columns first, then the new ones, no duplicates |
| Tables.ConcatLayout | lib/python/mirtk/repeat.py:99-102 | `pd.concat([a, b])`: the rows of `a`, then those of `b`; `a`'s columns first; the columns are exactly those of either table |
| Tables.ConcatAllOutcome | lib/python/mirtk/repeat.py:99-102 | concatenating the sub-results gives their rows in order, or the first failure |
| Tables.ConcatPrefixKeepsLead | lib/python/mirtk/repeat.py:99-102 | when every part starts with the same columns, so does the concatenation |
| Tables.ConcatOntoEmpty | lib/python/mirtk/repeat.py:97-101 | concatenating onto the initial empty DataFrame changes nothing |
| Tables.Insert | lib/python/mirtk/repeat.py:164-168 | `df.insert(loc, name, v)`: the column lands at `loc` with `v` in every row; a duplicate name raises ValueError |
| Tables.Rename | lib/python/mirtk/repeat.py:334 | renaming changes one column name and moves its values; other columns are untouched |
| Tables.SetColumn | lib/python/mirtk/repeat.py:474 | `assign`: the column is replaced in place or appended, with one value per row |
| Tables.DropColumn | lib/python/mirtk/repeat.py:494-495 | `del df[c]`: the column is gone and every other value is kept |
| Loader.LeafIdOf | lib/python/mirtk/repeat.py:138-141 | a truthy regid is decoded into toolkit, command and version; otherwise the regid is encoded from them |
| Loader.LeafIdAgrees | lib/python/mirtk/repeat.py:138-141 | giving `get_regid(t, c, v)` as regid yields the same identity as giving its parts |
| Loader.RegidDecides | lib/python/mirtk/repeat.py:230-233 | with a regid given, the toolkit, command and version arguments do not affect the leaf |
| Loader.PrefixParams | lib/python/mirtk/repeat.py:164-168 | the parameter table gets `dataset, regid, toolkit, command, version` in front, with the identity's values, unless one of them already exists |
| Loader.PrefixParamsRows | lib/python/mirtk/repeat.py:164-168 | each row of the prefixed parameter table is the file's row with the dataset and the four identity values set |
| Loader.FrontIdentity | lib/python/mirtk/repeat.py:245-249 | the reverse-order inserts at 0 give `dataset, regid, toolkit, command, version` first |
| Loader.TagTarget | lib/python/mirtk/repeat.py:242-244 | `tgtid`, and `cfgid` as `int(cfgid)` only when it is truthy, are put in front; a clash raises |
| Loader.PrefixFragment | lib/python/mirtk/repeat.py:241-249 | fragment columns are the five identity columns, `cfgid` if truthy, `tgtid`, then the file's columns; each row carries the identity values, `int(cfgid)` when cfgid is truthy, and `tgtid`, and keeps its own values elsewhere |
| Loader.FragmentRows | lib/python/mirtk/repeat.py:241-249 | every fragment row carries the identity values, `int(cfgid)` when cfgid is truthy, and `tgtid`; any other column keeps the file's value |
| Loader.TargetGets | lib/python/mirtk/repeat.py:242-244 | the `tgtid` column holds the target and, for a truthy cfgid, the `cfgid` column holds `int(cfgid)`; columns outside the inserted ones are untouched |
| Loader.IntsOf | lib/python/mirtk/repeat.py:161 | `[int(i) for i in cfgid]`, failing on the first non-integer |
| Loader.RowsWithCfgid | lib/python/mirtk/repeat.py:161 | `isin` keeps exactly the rows whose cfgid is one of the values |
| Loader.FilterCfgid | lib/python/mirtk/repeat.py:160-163 | no cfgid keeps every row; a single cfgid keeps exactly the rows equal to `int(cfgid)`; a table without a cfgid column raises |
| Loader.ParamsLeaf | lib/python/mirtk/repeat.py:137-169 | a `get_params` leaf starts with the five identity columns |
| Loader.ParamsLeafDefault | lib/python/mirtk/repeat.py:156-157 | with no parameter table, the leaf is the single row `cfgid = 1` behind the identity columns |
| Loader.AverageLeaf | lib/python/mirtk/repeat.py:229-250 | a non-empty averaged-measures fragment starts with the five identity columns |
| Loader.RenameTimesEffect | lib/python/mirtk/repeat.py:327-334 | `cpu_time` becomes `user` and `wall_time` becomes `real`, values moving along; every other column is unchanged |
| Loader.RenameTimes | lib/python/mirtk/repeat.py:327-334 | the `time` renaming keeps the number of columns and of rows |
| Loader.MeasurementLeaf | lib/python/mirtk/repeat.py:319-344 | a non-empty measurement fragment starts with the five identity columns |
| Loader.MissingFileIsEmpty | lib/python/mirtk/repeat.py:324-325 | a missing measurement file gives the empty table, not an error |
| Resolver.Check | lib/python/mirtk/repeat.py:255-260 | validation passes iff measure (for `read_measurements`), dataset, and regid or toolkit are truthy |
| Resolver.Peel | lib/python/mirtk/repeat.py:263-318 | a failed check stops the call before any expansion; every expansion is into smaller queries; a leaf has only scalar selectors |
| Resolver.CommandSel | lib/python/mirtk/repeat.py:125-126 | `command[toolkit]` for a command dictionary: KeyError for a missing toolkit |
| Resolver.VersionSel | lib/python/mirtk/repeat.py:131-132 | `version[get_regid(toolkit, command)]`: KeyError when that identifier is not a key |
| Resolver.LeafTable | lib/python/mirtk/repeat.py:137-169 | every leaf table is empty or starts with the five identity columns |
| Resolver.Resolved | lib/python/mirtk/repeat.py:253-260 | validation errors, in the source's order, before any file access |
| Resolver.SubResults | lib/python/mirtk/repeat.py:263-318 | one result per sub-query, in order |
| Resolver.Read | lib/python/mirtk/repeat.py:253-344 | the recursive procedure with its `pd.concat` loops computes `Resolved` |
| Resolver.ReadAll | lib/python/mirtk/repeat.py:263-266 | the accumulation loop computes the concatenation of the sub-results, stopping at the first failure |
| Resolver.ResolvedColumns | lib/python/mirtk/repeat.py:241-249 | every non-empty result, at any depth of the recursion, starts with the five identity columns |
| Resolver.ExpansionRows | lib/python/mirtk/repeat.py:99-136 | when no sub-query of an expanded query fails, its rows are the sub-queries' rows, one after the other |
| Resolver.ExpansionFirstFailure | lib/python/mirtk/repeat.py:99-136 | an expanded query raises the error of its first failing sub-query |
| Resolver.FirstFails | lib/python/mirtk/repeat.py:99-102 | a failure of the first sub-query is the failure of the whole call |
| Resolver.DatasetsFirst | lib/python/mirtk/repeat.py:267-270 | once validation passes, a dataset list is expanded before every selector but a measure list, each sub-query taking one dataset |
| Resolver.RegidMapToolkits | lib/python/mirtk/repeat.py:103-126 | a regid dictionary expands over its keys, and each toolkit's command is its entry in the dictionary |
| Resolver.RegidMapVersions | lib/python/mirtk/repeat.py:109-132 | after flattening, the version of toolkit `tk` and command `cmd` is looked up under `get_regid(tk, cmd)` |
| Resolver.CommandListMapFails | lib/python/mirtk/repeat.py:114-132 | a dictionary mapping a toolkit to a command list leaves `version = {}`, so the query raises KeyError for `get_regid(tk, first command)` |
| Resolver.VersionLookupFails | lib/python/mirtk/repeat.py:131-132 | a command with an empty version dictionary raises KeyError |
| Resolver.EmptyCfgidMeasurements | lib/python/mirtk/repeat.py:305-307 | in `read_measurements` an empty cfgid list reads as if no cfgid were given |
| Resolver.EmptyCfgidAverage | lib/python/mirtk/repeat.py:218-221 | in `read_average_measures` an empty cfgid list gives an empty table |
| Resolver.DefaultTargets | lib/python/mirtk/repeat.py:223-228 | without tgtid, the leaf expands over the sorted target ids found in the result directory |
| Resolver.LeafPeel | lib/python/mirtk/repeat.py:263-318 | a query whose selectors are all scalars passes the registration checks and goes straight to the cfgid stage |
| Results.ResultsPeel | lib/python/mirtk/repeat.py:349-419 | validation first; sub-queries keep the measure and lose the cfgid; a leaf has scalar selectors except the measure |
| Results.MergeKeys | lib/python/mirtk/repeat.py:360-364 | the merged dictionary's measures are the union of both dictionaries' |
| Results.Merge | lib/python/mirtk/repeat.py:360-364 | merging keeps the accumulated measures in their order at the front |
| Results.MergeOne | lib/python/mirtk/repeat.py:361-364 | one measure of the merge: an existing measure keeps its place, a new one is appended, and the measure is present afterwards |
| Results.MergeNoRepeats | lib/python/mirtk/repeat.py:360-364 | merging into a dictionary adds no repeated measure |
| Results.MergePrefixNoRepeats | lib/python/mirtk/repeat.py:357-365 | the dictionary merged over the sub-queries never repeats a measure |
| Results.FoldKeeps | lib/python/mirtk/repeat.py:357-365 | a property of result dictionaries that every merge step preserves holds after any number of sub-queries |
| Results.MergeOneRows | lib/python/mirtk/repeat.py:361-364 | merging one table appends its rows to that measure's and leaves every other measure alone |
| Results.MergeRows | lib/python/mirtk/repeat.py:360-364 | merging appends each measure's new rows after those already collected |
| Results.MergePrefixRows | lib/python/mirtk/repeat.py:357-365 | after the loop over the sub-queries each measure holds their rows in order |
| Results.FoldRows | lib/python/mirtk/repeat.py:357-365 | when each merge step appends a sub-query's rows, the merged prefix holds all of them in order, and no step fails |
| Results.ResultsRows | lib/python/mirtk/repeat.py:357-419 | when no sub-query fails, each measure of `read_results` gathers that measure's rows of every sub-query, in order |
| Results.Results | lib/python/mirtk/repeat.py:347-354 | validation errors in order (measure, dataset, regid or toolkit); the dictionary never repeats a measure |
| Results.LeafRegid | lib/python/mirtk/repeat.py:423-424 | a truthy regid is used as given, otherwise it is encoded; never empty |
| Results.Cfgids | lib/python/mirtk/repeat.py:425-440 | `affine` gives no cfgids; a scalar becomes a one-element list; a list is kept; a dictionary without the regid raises KeyError |
| Results.DefaultCfgids | lib/python/mirtk/repeat.py:437-440 | only parameter sets whose result directory exists are kept |
| Results.ExistingCfgidsAreDirs | lib/python/mirtk/repeat.py:438-440 | only cfgids whose directory exists are kept |
| Results.ExistingCfgidsKept | lib/python/mirtk/repeat.py:438-440 | every parameter row whose directory exists contributes its cfgid |
| Results.ExistingCfgidsFails | lib/python/mirtk/repeat.py:438-440 | a failure comes from a cfgid that cannot name a directory |
| Results.ResultsLeaf | lib/python/mirtk/repeat.py:420-458 | the leaf dictionary holds exactly the requested measures, each once |
| Results.MeasureTablesNoRepeats | lib/python/mirtk/repeat.py:441-457 | the loop over the measures never repeats a key |
| Results.MeasureTablesKeys | lib/python/mirtk/repeat.py:441-457 | the dictionary holds exactly the measures requested so far |
| Results.MeasureTablesLookup | lib/python/mirtk/repeat.py:441-457 | `dfs[m]` is the table read for `m`, for every requested measure |
| Results.MeasureTablesFails | lib/python/mirtk/repeat.py:441-457 | a failure comes from the read of one of the measures |
| Results.AffineCfgids | lib/python/mirtk/repeat.py:425-426 | for `affine`, `vox` is an empty table and every other measure reads as without cfgid |
| Results.MeasureTable | lib/python/mirtk/repeat.py:441-457 | a failing `vox` read is the measure's failure; a successful table holding `tgtid` and `srcid` has no row comparing an image with itself |
| Results.WithPctexcl | lib/python/mirtk/repeat.py:446-447 | `pctexcl` is appended from `nexcl` and `n` only when both exist and it does not; otherwise the table is unchanged |
| Results.BeforeDash | lib/python/mirtk/repeat.py:452 | `split('-')[0]` is the longest dash-free prefix |
| Results.CutSrcids | lib/python/mirtk/repeat.py:451-452 | each srcid is cut at its first dash, nothing else changes; a non-string srcid raises |
| Results.IdVars | lib/python/mirtk/repeat.py:453 | the identifying columns are exactly the table's columns among the eight id names |
| Results.ValueVars | lib/python/mirtk/repeat.py:454 | the melted columns are exactly the others |
| Results.MeltRow | lib/python/mirtk/repeat.py:454 | a melted row keeps the identifying values, and has the column name as `label` and its cell as `dsc` |
| Results.MeltOrder | lib/python/mirtk/repeat.py:454 | row `j * n + i` of the long table is input row `i` read at value column `j` |
| Results.OverlapLong | lib/python/mirtk/repeat.py:450-454 | the long table's columns are the id columns, `label`, `dsc`; it has one row per (value column, input row) |
| Results.DropSelfPairs | lib/python/mirtk/repeat.py:455-456 | with both `tgtid` and `srcid`, exactly the rows that compare an image with itself are dropped |
| Results.ReadResults | lib/python/mirtk/repeat.py:347-458 | the procedure with its loops computes `Results` |
| Results.ReadAllResults | lib/python/mirtk/repeat.py:357-365 | the loop over sub-queries merges their dictionaries in order, stopping at the first failure |
| Results.MergeInto | lib/python/mirtk/repeat.py:360-364 | the loop `for m in res` computes `Merge` |
| Results.MergeSnoc | lib/python/mirtk/repeat.py:360-364 | merging one more measure of a sub-query's dictionary is one `MergeOne` step |
| Results.ReadLeaf | lib/python/mirtk/repeat.py:420-458 | the measure loop computes the leaf dictionary |
| Results.ReadCfgids | lib/python/mirtk/repeat.py:425-440 | the cfgid branches compute `Cfgids` |
| Results.CollectCfgids | lib/python/mirtk/repeat.py:437-440 | the `isdir` loop computes `ExistingCfgids` |
| Results.ReadMeasure | lib/python/mirtk/repeat.py:442-457 | one measure's read and post-processing computes `MeasureTable` |
| LabelGroups.GroupName | lib/python/mirtk/repeat.py:482-483 | the group name is what follows the `Label Group: ` prefix |
| LabelGroups.MarkColumnEffect | lib/python/mirtk/repeat.py:484-485 | one group column maps each `+`-marked label to its group and leaves other labels alone; it raises iff a marked label is not an integer |
| LabelGroups.GroupsUpToEffect | lib/python/mirtk/repeat.py:481-485 | after each column, a label is mapped iff some group column marks it, to the group of the last such column |
| LabelGroups.GroupsUpToFails | lib/python/mirtk/repeat.py:481-485 | the scan over the taxonomy's columns fails exactly when some group column marks an invalid label |
| LabelGroups.GroupsUpToMembers | lib/python/mirtk/repeat.py:481-485 | a label is mapped exactly when some group column up to the current one marks it |
| LabelGroups.GroupsUpToLastWins | lib/python/mirtk/repeat.py:481-485 | a mapped label belongs to the group of the last column that marks it |
| LabelGroups.TaxonomyEffect | lib/python/mirtk/repeat.py:479-485 | the label map holds exactly the marked labels, the last group column wins, and it raises iff some marked label is no integer |
| LabelGroups.ReadTaxonomy | lib/python/mirtk/repeat.py:479-485 | the nested loops compute the label map |
| LabelGroups.TagOf | lib/python/mirtk/repeat.py:487 | `ingroup` is true iff the label is mapped; `group` is the mapped name or None |
| LabelGroups.TagRows | lib/python/mirtk/repeat.py:486-488 | the rows of one dataset get the tag of their label; other rows are unchanged; a non-integer label raises |
| LabelGroups.TagDataset | lib/python/mirtk/repeat.py:476-488 | tagging one dataset keeps the table's shape; a non-string dataset raises TypeError |
| LabelGroups.Datasets | lib/python/mirtk/repeat.py:475 | `unique()` lists every dataset of the table once |
| LabelGroups.TagAll | lib/python/mirtk/repeat.py:476-488 | the loop over datasets keeps the table's shape |
| LabelGroups.TagAllRow | lib/python/mirtk/repeat.py:476-488 | after the loop each row carries the tag from its own dataset's taxonomy, whatever the order of datasets |
| LabelGroups.MissingRegInfo | lib/python/mirtk/repeat.py:473 | `reg_info` needs the regid, toolkit, command and version columns |
| LabelGroups.Tagged | lib/python/mirtk/repeat.py:473-488 | a missing identity column raises KeyError; the tag column exists and no row is lost |
| LabelGroups.TaggedRows | lib/python/mirtk/repeat.py:474-488 | each tagged row is the input row with the tag given by its own dataset's taxonomy |
| LabelGroups.RetagRow | lib/python/mirtk/repeat.py:474-488 | overwriting the tag column leaves the row's tag lookup unchanged, and the last write wins |
| LabelGroups.NoTaxonomyKeepsDefault | lib/python/mirtk/repeat.py:474-478 | a dataset without taxonomy file keeps `ingroup=False` / `group=None` |
| LabelGroups.GroupTagged | lib/python/mirtk/repeat.py:514-528 | `group` is the label's group name in its dataset's taxonomy, or None; all else is unchanged |
| LabelGroups.InGroupRows | lib/python/mirtk/repeat.py:493 | `df[df.ingroup == True]` keeps exactly the rows tagged true |
| LabelGroups.InGroup | lib/python/mirtk/repeat.py:493-495 | the filtered table has no `ingroup` column |
| LabelGroups.InGroupKeeps | lib/python/mirtk/repeat.py:486-495 | a row survives the filter iff its label is an integer that its dataset's taxonomy assigns to a group |
| LabelGroups.Normalised | lib/python/mirtk/repeat.py:464-470 | a lone DataFrame without measure is the `dsc` table; a single measure becomes a one-element list |
| LabelGroups.AverageAllKeys | lib/python/mirtk/repeat.py:471-495 | the averaged dictionary has exactly the measures that are selected |
| LabelGroups.AverageAllProcessed | lib/python/mirtk/repeat.py:471-495 | the averaged dictionary exists only when every selected table was processed without error |
| LabelGroups.AverageAllEntries | lib/python/mirtk/repeat.py:471-495 | each selected measure's entry is its own processed table |
| LabelGroups.Averaged | lib/python/mirtk/repeat.py:496-498 | a measure missing from the dictionary raises KeyError; without a measure the dictionary is returned |
| LabelGroups.AveragedOne | lib/python/mirtk/repeat.py:496-497 | one named measure returns that measure's processed table |
| LabelGroups.OneFrame | lib/python/mirtk/repeat.py:464-466 | a lone DataFrame yields its in-group rows (`average_overlap`) or its group-tagged rows (`average_group_overlap`) |
| LabelGroups.IsOverlapMeasure | lib/python/mirtk/repeat.py:18-20 | the segmentation overlap measures are exactly `dsc` and `jsc` |
| LabelGroups.AverageOverlap | lib/python/mirtk/repeat.py:461-498 | `average_overlap` up to the averaging: a named measure missing from the dictionary raises KeyError; without a measure a dictionary of tables is returned |
| LabelGroups.AverageGroupOverlap | lib/python/mirtk/repeat.py:501-536 | `average_group_overlap` up to the averaging, with the same KeyError and dictionary cases |
| LabelGroups.AverageTables | lib/python/mirtk/repeat.py:461-498 | the loops compute `Averaged` |
| LabelGroups.AverageEach | lib/python/mirtk/repeat.py:471-495 | the loop `for m in dfs` computes the averaged dictionary, stopping at the first failure |
| LabelGroups.AverageStep | lib/python/mirtk/repeat.py:472-495 | one pass of that loop processes and stores a selected table and skips the others |
| LabelGroups.ProcessTable | lib/python/mirtk/repeat.py:473-495 | one selected table is tagged, then filtered for `average_overlap` |
| LabelGroups.TagTable | lib/python/mirtk/repeat.py:473-488 | the `assign` and dataset loop compute `Tagged` |
| LabelGroups.TagDatasetStep | lib/python/mirtk/repeat.py:476-488 | one pass of the dataset loop tags that dataset's rows |

## Left out

- The filesystem is an input (`Store`): directory listings, and each CSV file already parsed into a table. `topdir` is the root of the relative paths. `os.path.join` is modelled as appending path components; an empty component adds nothing.
- CSV parsing and pandas dtypes are not modelled. A cell is null, a string, an int, a real or a bool. A missing cell reads as null (NaN).
- The `roi` inner merges of the mean, sdev and size tables (lib/python/mirtk/repeat.py:239-240) are an abstract function `Store.join`, and `pctexcl = 100 * nexcl / (n + nexcl)` is the abstract `Store.pctexcl`: floating-point and merge semantics are outside the model.
- `pd.concat` is modelled as the union of columns in order of appearance plus the rows appended. Index handling, dtype promotion and column sorting are not modelled.
- LabelGroups.AverageOverlap and LabelGroups.AverageGroupOverlap stop before the averaging. `groupby(id_vars).mean()`, `reset_index` and the merge with `reg_info` (lib/python/mirtk/repeat.py:489-493, 529-533) are not modelled. The result is the tagged (and, for `average_overlap`, filtered) table the mean would be taken over. Whether pandas drops rows whose group key is None is not modelled. The `ingroup` filter is applied to rows: it is a grouping key, so that selects the same groups.
- LabelGroups.Normalised requires that a list of measures come with a dictionary of tables. With a lone DataFrame, the source iterates over the DataFrame's columns; the behaviour of that depends on pandas.
- A dictionary of tables is a sequence of pairs. Python dictionaries cannot repeat a key; the lemmas about them state this as `Distinct(Keys(d))` where it matters.
- Selectors hold strings (cfgids: ints, strings, or other values with their truthiness and `int()` result). A list inside a list, and non-string list elements other than cfgids, are not modelled.
- `is_iterable` relies on `collections.Iterable`, which exists only in Python before 3.10; the model assumes such a Python. `is_iterable` is true exactly for the list and dictionary selectors.
- The numpy integer types accepted by `cfgidstr` (lib/python/mirtk/repeat.py:54) are modelled as plain ints. A float or other cfgid is `OtherId`, for which `cfgidstr` raises.
- `int()` on strings accepts an optional sign and ASCII digits; the whitespace and underscores Python also accepts are not modelled.
- `set_params` (lib/python/mirtk/repeat.py:539-570) and `read_label_volumes` (lib/python/mirtk/repeat.py:576-592) are not part of this model: the first is a pandas merge, the second is unfinished and refers to undefined names.
- `read_results` really does drop `cfgid` when it recurses (lib/python/mirtk/repeat.py:359, 382, 391, 402, 413). The model follows the code: any expanded call resolves its cfgids at the leaf.
- A cfgid of 0 is falsy, so it is treated as absent in `get_csvdir` and in the fragment's `cfgid` column (lib/python/mirtk/repeat.py:64, 243, 337). The model follows the code.
- Loader.ParamsLeaf: models the intended parameter-table search, `Naming.ParamsCsv`. As written (lib/python/mirtk/repeat.py:148), only the tables named after the full regid are tried. When only the version-less table exists, the code uses the default single row `cfgid = 1` instead.
- Loader.AverageLeaf, Loader.MeasurementLeaf: build the result path with the intended `Naming.CsvDir`. As written, `get_csvdir` raises NameError for every truthy cfgid (lib/python/mirtk/repeat.py:65, reached from 234 and 324), so every leaf with a non-zero cfgid fails.
- Naming.Tgtids, Resolver.DefaultTargets: list the intended result directory. As written, `get_tgtids` raises NameError when it is given a truthy cfgid (lib/python/mirtk/repeat.py:81, reached from 224 and 314).
- Results.DefaultCfgids, Results.ExistingCfgids, Results.CollectCfgids: test `isdir` on the intended `Naming.CsvDir` path, and read the parameter table through the intended search. As written, the loop at lib/python/mirtk/repeat.py:438-440 raises NameError at the first non-zero cfgid of the parameter table. Without a parameter file that table is the default `cfgid = 1`, so a non-affine `read_results` without cfgid then always raises.

## Findings

| source | as written | input that shows it | evidently intended | confidence | as-written member | corrected member |
|---|---|---|---|---|---|---|
| lib/python/mirtk/repeat.py:65 | `get_csvdir` calls `cfgidst`, a name that is not defined, whenever cfgid is truthy | `get_csvdir('d', 'r', 7)` raises NameError | `cfgidstr(cfgid)`, giving `var/table/d/r/0007` | not executed | Naming.CsvDirFinding | Naming.CsvDir |
| lib/python/mirtk/repeat.py:143-148 | the parameter-table search loops over two candidate names but always builds the path from `regid`, so the version-less fallback never applies | regid `mirtk-ireg-2.0.0` when only `etc/params/mirtk-ireg.csv` exists: no table found, default `cfgid = 1` used | the path built from `name`, finding `etc/params/mirtk-ireg.csv` | not executed | Naming.ParamsCsvFinding | Naming.ParamsCsv |
