# quick-copy-rs change detection and incremental copy, in Dafny

This project models the core of quick-copy-rs, a one-way directory
synchroniser. The core has four parts:

- **The path model** (`src/paths.rs`). A path is normalised and split into
  names, and the source keeps those names as a linked `PathSegment` chain.
  Here the chain is a `seq<string>`.
- **The case-insensitive matching** the path model uses
  (`src/utilities.rs`).
- **The three-way merge** (`src/change_detector.rs`). For every target root,
  it lists the source root and the target root and keys each entry by its
  lower-cased relative path. It then produces Create actions for keys found
  only in the source and Delete actions for keys found only in the target.
  It produces an Update action for a pair of files whose length or
  modification time differ.
- **The executor** (`src/copier.rs`). Per action list it builds a
  create/update queue and a reversed delete queue, performs the queues in
  that order and counts the operations. When deletes are disabled, it stops
  at the first delete.

The files:

- `utilities.dfy` (module `Utilities`): `string_match` and its relatives,
  with Unicode lower-casing modelled as ASCII lower-casing.
- `paths.dfy` (module `Paths`):
  - normalising and splitting paths;
  - the chain operations, `identical`, `contains_all_of_segment`,
    `get_differing_segment` and `append_segment`;
  - `FileInfoParser::new`, `match_extension`;
  - the action constructors, `partial_cmp` and
    `get_destination_from_segment`.
- `change_detector.dfy` (module `ChangeDetector`): the merge, in two forms:
  - specification functions (`Merge`, `TargetActions`, `Actions`, `KeyMap`,
    `Unmatched`, `InBoth`);
  - methods that follow the source's loops and are proved to compute those
    functions (`ThreeWayMerge`, `MergeTarget`, `BuildPathCache`,
    `ClassifySource`, `ClassifyTarget`, `AppendUpdates`, `Changed`).
- `copier.dfy` (module `Copier`):
  - the depth sort and the two queues;
  - the executor as a method, `IncrementalCopy`. It returns the trace of
    filesystem effects (`Copy`, `CreateDir`, `RemoveFile`, `RemoveDir`) and
    the final counter of every list, proved equal to the specification
    functions `Trace` and `Counters`.
- `wrappers.dfy` and `sequences.dfy`: `Option`, and generic sequence facts
  used by the proofs.

The filesystem is an input:

- A `Snapshot` maps each path to the metadata that `fs::metadata` reports
  (directory flag, length, modification time) and to what
  `Path::extension` and `Path::file_name` return.
- A `Listing` maps each root to the paths `files::get_all_files` returns
  for it.
- The platform that `cfg!` selects is a `Platform` parameter.

## What the code does, where it could be misread

The model follows the code in each of these cases.

- **Empty path components are kept.** The filter in `normalized_splitter`
  is `!x.is_empty() || x != "?"`, which is always true, so empty
  components stay (`Paths.FilterKeepsEverything`).
- **`identical` is not equality.** It requires equal name counts and, name
  by name, that the second name is a case-insensitive substring of the
  first. It is not symmetric (`Paths.IdenticalNotSymmetric`).
- **The depth ordering has no effect.**
  - `get_segment_length` splits on the pipe character, which never occurs in a chain's
    names, so every action has depth 1 (`Paths.DepthIsOne`).
  - `partial_cmp` therefore always answers `Equal`.
  - The stable sort keeps the merge's order, and the delete queue is simply
    the deletes reversed (`Copier.SortFlatIsIdentity`,
    `Copier.QueuesOfParserActions`).
- **The merge applies no filters and no content comparison.**
  - `ProgramOptions.skip_folders` (`src/configuration.rs:15`) is never read
    by `three_way_merge`.
  - `match_extension` (`src/paths.rs:328-337`) is never called by
    `three_way_merge`.
  - An Update is decided by length or modification time alone
    (`src/change_detector.rs:172-183`), and only for pairs where both
    entries are files. File contents are never compared.
- **`get_differing_segment` can return nothing.** It returns `None`, not an
  empty suffix, when the path adds nothing to the base.
- **`contains_all_of_segment` can miss a run.** On a mismatch it resets its
  counter without re-testing the current name (see Findings).

## Model

| member | source | states |
|---|---|---|
| Utilities.StringMatch | src/utilities.rs:1-17 | true exactly when the lower-cased haystack occurs as a substring of the lower-cased needle (two empty strings match) |
| Utilities.FirstMatch | src/utilities.rs:12-14 | returns the first position at or after `from` where the pattern occurs, and None exactly when it occurs nowhere from there |
| Utilities.StringMatchStr | src/utilities.rs:19-21 | the `&str` form answers exactly as `string_match` |
| Utilities.CharMatch | src/utilities.rs:24-29 | two characters match exactly when their one-character strings match case-insensitively |
| Utilities.PathIsUnc | src/utilities.rs:31-33 | true exactly when the path starts with two backslashes |
| Utilities.StringMatchEmpty | src/utilities.rs:8-16 | an empty haystack matches every needle; an empty needle matches only the empty haystack |
| Utilities.LowerStrIdempotent | src/utilities.rs:2-3 | lower-casing twice is lower-casing once |
| Utilities.StringMatchIgnoresCase | src/utilities.rs:2-3 | lower-casing either argument first never changes the answer |
| Utilities.StringMatchReflexive | src/utilities.rs:12-14 | every string matches itself |
| Utilities.StringMatchNotSymmetric | src/utilities.rs:12-14 | the test is one-directional: "ab" contains "A", but "a" does not contain "ab" |
| Utilities.PathIsUncPrefix | src/utilities.rs:31-33 | extending a UNC path keeps it UNC |
| Paths.PlatformSeparator | src/paths.rs:70-78 | the separator is a backslash on Windows and a forward slash on every other platform |
| Paths.DefaultSegmentStringParses | src/paths.rs:70-78 | the default segment string of a parsed chain parses back to that chain |
| Paths.Reverse | src/copier.rs:36 | the reversal has the same length, and element i is element n-1-i of the input |
| Paths.ReverseReverse | src/copier.rs:36 | reversing twice gives back the queue |
| Paths.Split | src/paths.rs:142 | splitting on a separator yields one more piece than the separator count |
| Paths.SplitPieces | src/paths.rs:142 | no piece contains the separator, and every character of a piece comes from the input |
| Paths.JoinSplit | src/paths.rs:142 | joining the pieces of a split with the same separator restores the string |
| Paths.SplitJoin | src/paths.rs:89-90 | splitting a join of separator-free names gives the names back |
| Paths.SplitConcat | src/paths.rs:142 | splitting x + sep + y is the split of x followed by the split of y |
| Paths.Normalize | src/paths.rs:138-140 | same length; each backslash and slash becomes the internal separator, the pipe character, every other character is kept |
| Paths.NormalizeCount | src/paths.rs:138-140 | after normalising, the count of pipe characters equals the number of slashes and backslashes in the path |
| Paths.FilterKeepsEverything | src/paths.rs:143 | the component filter keeps every component, empty ones included |
| Paths.NormalizedSplitter | src/paths.rs:137-147 | yields one name per separator plus one; no name holds a separator; joined with pipes they are the normalised path |
| Paths.SlashesAreAlike | src/paths.rs:137-147 | two paths that differ only in which slash they use parse to the same names |
| Paths.ParseJoin | src/paths.rs:137-147 | joining names with either slash and parsing gives the names back |
| Paths.ParseConcat | src/paths.rs:137-147 | parsing p + slash + q gives the names of p followed by the names of q |
| Paths.Parse | src/paths.rs:133-135 | PathParser::new always yields a chain, with one name per separator plus one, whose names joined by the pipe character are the normalised path |
| Paths.BuildSegments | src/paths.rs:149-167 | building the chain by pushing the reversed names yields a non-empty chain equal to the parsed names in order |
| Paths.GetRemainingSegments | src/paths.rs:38-51 | the walk yields one node per name, node i being the chain from name i on |
| Paths.GetSegments | src/paths.rs:64-68 | the names of the remaining segments are the chain itself |
| Paths.TerminatedJoin | src/paths.rs:53-62 | pushing name then separator for every node is the join plus one trailing separator |
| Paths.GetSegmentString | src/paths.rs:53-62 | after the final pop, the segment string is the names joined by the separator |
| Paths.SegmentLength | src/paths.rs:80-84 | at least 1, and exactly 1 whenever no name contains a pipe |
| Paths.Identical | src/paths.rs:108-124 | the loop returns exactly the identical predicate: same number of pieces, and each piece of self contains the piece of other |
| Paths.IdenticalOnNames | src/paths.rs:108-124 | on parsed names, identical holds iff the lengths agree and each name of self contains the matching name of other |
| Paths.IdenticalNeedsSameLength | src/paths.rs:114-116 | chains of different lengths are never identical |
| Paths.IdenticalReflexive | src/paths.rs:108-124 | every chain is identical to itself |
| Paths.IdenticalNotSymmetric | src/paths.rs:118-122 | C:/Users is identical to C:/User, but not the reverse |
| Paths.ContainsAllOfSegment | src/paths.rs:86-106 | the loop returns exactly the scan predicate over the split names, reset included |
| Paths.ContainsItself | src/paths.rs:86-106 | every chain contains all of itself |
| Paths.ContainsAllSound | src/paths.rs:86-106 | a true answer means the folder occurs as a contiguous run of the path's names |
| Paths.ContainsAllMissesOverlappingRun | src/paths.rs:100-102 | as written, a, a, b does not contain a, b although the run occurs at position 1 |
| Paths.ContainsRunFrom | src/paths.rs:86-106 | the corrected search is true iff a run of the folder starts at or after `start` |
| Paths.ContainsRunComplete | src/paths.rs:86-106 | the corrected search accepts whatever the source accepts, and also finds the overlapping run the source misses |
| Paths.FirstDifference | src/paths.rs:176-198 | returns the first index where other has no partner in base or differs from it, or None when there is none |
| Paths.DifferingSegment | src/paths.rs:169-201 | None iff every name of other matches base; otherwise other's suffix from the first differing index |
| Paths.DifferingSegmentAt | src/paths.rs:169-201 | the suffix starts exactly at the first differing index |
| Paths.GetDifferingSegment | src/paths.rs:169-201 | the zip-longest loop computes the differing segment |
| Paths.DifferingSegmentOfExtension | src/paths.rs:169-201 | a path extending the base by `rest` yields `rest`, or None when `rest` is empty |
| Paths.AppendSegment | src/paths.rs:203-216 | appending to a parsed chain yields the chain followed by the parsed names of the new segment |
| Paths.AppendSegmentIsConcatenation | src/paths.rs:203-216 | appending q to parse(p) equals parsing p + separator + q |
| Paths.RemoveDots | src/paths.rs:296 | the result has no dot, is shorter by the number of dots, and a dot-free name is unchanged |
| Paths.DotfileRule | src/paths.rs:293-304 | a name starting with a dot is dropped and becomes the extension without its dots; otherwise both are kept |
| Paths.NewFileInfoParser | src/paths.rs:277-317 | the record keeps path and metadata, is a file iff not a directory, its segment is the differing segment of the path against the base, its extension and file name follow the dotfile rule, and it is UNC iff the base is |
| Paths.RecordUnderRoot | src/paths.rs:279-287 | an entry at base + separator + rel gets the names of rel as its segment |
| Paths.RecordSegmentIsNames | src/paths.rs:286-287 | a record's segment, when present, is a non-empty list of separator-free names |
| Paths.MatchExtension | src/paths.rs:328-337 | directories always match; a file without an extension never does; otherwise the list decides |
| Paths.DotfileExtensionMatch | src/paths.rs:293-337 | a dotfile is matched by its name without dots |
| Paths.NewAction | src/paths.rs:382-392 | the action has the given kind, the given source and the given destination, and partial_cmp orders it by its source |
| Paths.NewSourceAction | src/paths.rs:394-400 | the action has the given kind and no destination, and partial_cmp orders it by its source |
| Paths.NewDestinationAction | src/paths.rs:402-408 | the action has the given kind and no source, and partial_cmp orders it by its destination |
| Paths.PartialCmp | src/paths.rs:355-378 | always an ordering: Less or Greater exactly as the depth comparison says |
| Paths.DepthIsOne | src/paths.rs:366-368 | every action built from parsed names has depth 1 |
| Paths.PartialCmpAlwaysEqual | src/paths.rs:355-378 | any two such actions compare Equal |
| Paths.DestinationFromSegment | src/paths.rs:420-433 | the destination is the target's names followed by the source's relative names, joined by the platform separator |
| Paths.DestinationUnderTarget | src/paths.rs:420-433 | parsing the destination gives the target's names followed by the source's relative names |
| ChangeDetector.ListFor | src/change_detector.rs:47-56 | a root identical to the source contributes no list; any other root contributes exactly one list for that pair of roots |
| ChangeDetector.KeyMapLastWriterWins | src/change_detector.rs:93-113 | a key is cached iff some record has it, and it maps to the path of the last such record |
| ChangeDetector.CachedPathsReadable | src/change_detector.rs:104-126 | every cached path is a readable path, so re-reading it at line 126 cannot fail |
| ChangeDetector.UnmatchedMembers | src/change_detector.rs:115-145 | the one filter behind in_first_only and in_second_only keeps records of its input only, in order, and keeps a record iff its key is absent from the other root's cache |
| ChangeDetector.BothSound | src/change_detector.rs:115-131 | every in_both pair is a source record with the target record rebuilt from its key |
| ChangeDetector.BothComplete | src/change_detector.rs:115-131 | every source record whose key is cached for the target appears in in_both with its partner |
| ChangeDetector.SourcePartition | src/change_detector.rs:115-131 | each source record goes to exactly one of in_first_only and in_both |
| ChangeDetector.TargetOnlyIff | src/change_detector.rs:135-145 | a target record is in in_second_only iff no source record has its key |
| ChangeDetector.BothPairsShareKey | src/change_detector.rs:124-127 | both records of an in_both pair have the same key, and the partner is a target record |
| ChangeDetector.UpdateIff | src/change_detector.rs:171-187 | an Update action is produced iff some in_both pair is two files of different length or modification time |
| ChangeDetector.UpdateActionsShape | src/change_detector.rs:171-187 | every produced action is an Update carrying both records of a pair that needs updating |
| ChangeDetector.ActionsShape | src/change_detector.rs:148-188 | creates come before deletes, deletes before updates; each kind has the source/destination sides the constructors give it |
| ChangeDetector.ActionListShape | src/change_detector.rs:76-188 | the same shape for one target's actions; both sides of an update share one key |
| ChangeDetector.SwapRootsSwapsCreatesAndDeletes | src/change_detector.rs:115-165 | swapping the roots turns the creates into the deletes, record for record |
| ChangeDetector.CreatesOfActions | src/change_detector.rs:148-165 | the Create actions are exactly the source-only records, in listing order |
| ChangeDetector.DeletesOfActions | src/change_detector.rs:156-165 | the Delete actions are exactly the target-only records, in listing order |
| ChangeDetector.MergeCount | src/change_detector.rs:44-56 | one list per target root not identical to the source |
| ChangeDetector.MergeSound | src/change_detector.rs:203-207 | every list names a given, non-identical target root and holds exactly that root's actions |
| ChangeDetector.MergeComplete | src/change_detector.rs:44-207 | every non-identical target root has a list |
| ChangeDetector.DistinctTargetsPositive | src/change_detector.rs:23-27 | the count is positive iff some target root is not identical to the source |
| ChangeDetector.SegmentKey | src/change_detector.rs:120-123 | the key is the lower-cased default segment string of the record |
| ChangeDetector.BuildPathCache | src/change_detector.rs:93-113 | the insert loop builds the key-to-path cache |
| ChangeDetector.ClassifySource | src/change_detector.rs:115-131 | the loop builds in_first_only and in_both as specified |
| ChangeDetector.ClassifyTarget | src/change_detector.rs:135-145 | the loop builds in_second_only as specified |
| ChangeDetector.AppendUpdates | src/change_detector.rs:167-188 | the loop appends the update actions after the creates and deletes |
| ChangeDetector.MergeTarget | src/change_detector.rs:76-202 | one target's actions equal the specified creates + deletes + updates |
| ChangeDetector.CompareRoots | src/change_detector.rs:47-50 | the skip test is `identical` on the two parsed roots |
| ChangeDetector.ThreeWayMerge | src/change_detector.rs:35-211 | the loop over target roots returns the specified list of action lists |
| ChangeDetector.Changed | src/change_detector.rs:23-27 | true iff some target root is not identical to the source, whatever the roots contain |
| Copier.SortByKeyPermutes | src/copier.rs:22-25 | the sort is a permutation |
| Copier.SortByKeySorted | src/copier.rs:22-25 | the sort result is ordered by key |
| Copier.SortByKeyFlat | src/copier.rs:22-25 | when all keys are equal, the sort keeps the order |
| Copier.SortByKeyUntag | src/copier.rs:22-25 | sorting permutes the untagged actions |
| Copier.SortByDepth | src/copier.rs:22-25 | the depth sort is a permutation of the actions |
| Copier.SortByDepthSorted | src/copier.rs:22-25 | the sorted actions are in non-decreasing depth |
| Copier.SortFlatIsIdentity | src/copier.rs:22-25 | when all depths are equal, the sort leaves the actions unchanged |
| Copier.OrderedCreates | src/copier.rs:22-29 | the create queue holds exactly the Create and Update actions |
| Copier.OrderedDeletes | src/copier.rs:31-37 | the delete queue holds exactly the Delete actions |
| Copier.QueuesOfParserActions | src/copier.rs:22-37 | for merge actions, the create queue is the actions without deletes, in order, and the delete queue is the deletes reversed |
| Copier.WithoutMembers | src/copier.rs:26-28 | the filter keeps an action iff it has another kind |
| Copier.OfKindMembers | src/copier.rs:35 | the filter keeps an action iff it has the kind |
| Copier.FiltersOfKinds | src/copier.rs:26-35 | on creates + deletes + updates, the filters give creates + updates and the deletes |
| Copier.ActionsQueues | src/copier.rs:22-37 | for one merge result, the create queue is the creates then the updates, and the delete queue is the target-only records reversed |
| Copier.MergedListQueues | src/copier.rs:18-37 | any list the merge produces can be executed, and its queues are as above |
| Copier.ActionsNamesOnly | src/copier.rs:42-112 | every merge action carries the records the executor unwraps |
| Copier.CreateEffect | src/copier.rs:43-76 | a Create or Update yields one effect, a Delete none, and no create-loop effect removes anything |
| Copier.CreateEffectPlaces | src/copier.rs:44-72 | a file is copied from the source record's path and anything else becomes a directory; a Create writes at the destination computed from the source segment, an Update at the destination record's path |
| Copier.CreateLandsUnderTarget | src/copier.rs:44-59 | the path a Create writes parses to the target root's names followed by the source record's relative names |
| Copier.CreateRunShape | src/copier.rs:42-84 | the create loop performs one non-removing effect per queued action |
| Copier.CreateRunAt | src/copier.rs:42-84 | effect i of the create loop is the effect of queued action i |
| Copier.CreatesPerformed | src/copier.rs:22-84 | a list's first effects are those of its create queue, one per queued action in queue order |
| Copier.Removal | src/copier.rs:94-105 | the removal of a Delete targets the destination record's path, with remove_file for a file and remove_dir otherwise; DeleteRunEnabled states its use in the loop |
| Copier.DeleteRunEnabled | src/copier.rs:94-105 | with deletes enabled, the loop removes every queued destination in queue order and counts each one |
| Copier.DeleteRunRemoves | src/copier.rs:86-119 | every effect of the delete loop is a removal |
| Copier.DeleteRunSuppressed | src/copier.rs:106-109 | with deletes disabled, the loop stops at the first delete: no effect and no count |
| Copier.QueuesCreatesBeforeRemovals | src/copier.rs:42-119 | once a removal happens, every later effect is a removal |
| Copier.CreatesBeforeRemovals | src/copier.rs:42-119 | the same for one action list run end to end |
| Copier.DeletesSuppressed | src/copier.rs:94-109 | with deletes disabled, nothing is removed and the counter equals the create queue's length |
| Copier.QueuesDeletesPerformed | src/copier.rs:94-112 | with deletes enabled, every queued delete is removed after the creates, and the counter is the total |
| Copier.DeletesPerformed | src/copier.rs:39-119 | the same for one action list run end to end |
| Copier.CopyList | src/copier.rs:19-119 | one iteration of the outer loop computes the specified effects and counter |
| Copier.RunQueues | src/copier.rs:39-119 | the two loops together compute the create run followed by the delete run |
| Copier.RunCreates | src/copier.rs:42-84 | the create loop computes the specified effects |
| Copier.RunDeletes | src/copier.rs:86-119 | the delete loop, including its break, computes the specified effects and counter |
| Copier.IncrementalCopy | src/copier.rs:18-122 | the effects of all lists in order, and each list's final counter |

## Left out

- Directory walking (`src/files.rs`) and reading metadata are not part of this model. Their results are the `Listing` and `Snapshot` inputs.
- Root existence checks and creation (`src/change_detector.rs:58-74`) are left out. The model assumes both roots already exist and can be walked (`Walkable`).
- Logging, the merge's ignore, use and directory counters, and the floating-point progress percentage are left out. They do not affect the result.
- Rust's Unicode `to_lowercase` is modelled as ASCII lower-casing, one character for one.
- The program options are parameters: source directory, target directories, `enable_deletes`. `match_list_or_all` is a function parameter because `src/utilities.rs` does not show its body.
- The `cfg!` separator choice is a `Platform` parameter.
- Failures of `fs::copy`, `fs::create_dir`, `fs::remove_file` and `fs::remove_dir` are not modelled. Each effect is recorded as performed.
- Each `unwrap` that the source expects to succeed is a precondition: `Walkable`, `MergeReady`, `CopyReady`, `CreateReady` and `DeleteReady`.
- Dead code is left out: `get_last`, `remove_last`, `get_source_length`, `get_destination_length` and `PartialEq for FileInfoParserAction`.
- `incremental_changes` is left out. It only returns `three_way_merge`, which `ChangeDetector.ThreeWayMerge` models.
- `get_segment` is left out. It only unwraps the chain, and its callers' preconditions cover that.
- The linked `PathSegment` chain is a `seq<string>`. Node sharing and cloning are not modelled.
- Copier.SortByKey: `itertools::sorted_by` is modelled as an insertion sort on depth-tagged pairs. It is proved to be a permutation and sorted. Stability is proved only for the case where all keys are equal (`Copier.SortByKeyFlat`), which is the only case the merge produces (`Paths.DepthIsOne`). Stability for mixed keys is not stated. Only the result is modelled, not the library's algorithm.
- Modification times are plain integers compared for equality.
- Paths.AppendSegment: states its result only for chains of separator-free names, which are the only ones the source builds.
- Paths.DestinationFromSegment: states its result only for relative segments of separator-free names, which are the only ones `FileInfoParser::new` produces.

## Findings

| source | as written | input that shows it | evidently intended | confidence | as-written member | corrected member |
|---|---|---|---|---|---|---|
| src/paths.rs:86-106 | on a mismatch the counter resets to 0 without testing the current name against the folder's first name | path names a, a, b and folder a, b: the answer is false | true whenever the folder's names occur as a contiguous run of the path's names | not executed | Paths.ContainsAllMissesOverlappingRun | Paths.ContainsRunComplete |
