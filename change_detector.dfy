/**
  The three-way merge of src/change_detector.rs.

  Directory walking and filesystem reads are inputs here: a `Listing` says
  what `get_all_files` returns for each root, and a `Snapshot` gives the
  entry `fs::metadata`, `Path::extension` and `Path::file_name` report for
  each path. The functions below specify the merge; the methods follow the
  source's loops and are proved to compute them.
 */
module ChangeDetector {
  import opened Wrappers
  import opened Utilities
  import opened Sequences
  import opened Paths

  /** The entry of every path the detector may read. */
  type Snapshot = map<string, Entry>

  /** The paths `get_all_files` lists under each root. */
  type Listing = map<string, seq<string>>

  // ---------------------------------------------------------------------
  // Specification
  // ---------------------------------------------------------------------

  /** `results1`/`results2`: one record per listed path, in listing order. */
  function Records(root: string, paths: seq<string>, fs: Snapshot): seq<FileInfoParser>
    requires forall p :: p in paths ==> p in fs
  {
    seq(|paths|, i requires 0 <= i < |paths| => NewFileInfoParser(paths[i], root, fs[paths[i]]))
  }

  /** The record has the segment `get_segment` unwraps. */
  predicate HasKey(r: FileInfoParser) {
    r.segment.Some? && |r.segment.value| >= 1
  }

  predicate AllKeyed(rs: seq<FileInfoParser>) {
    forall i :: 0 <= i < |rs| ==> HasKey(rs[i])
  }

  /** The join key: the lower-cased default segment string. */
  function Key(r: FileInfoParser, platform: Platform): string
    requires HasKey(r)
  {
    LowerStr(DefaultSegmentString(r.segment.value, platform))
  }

  /** A path cache built by inserting every record's key and path in order. */
  function KeyMap(rs: seq<FileInfoParser>, platform: Platform): map<string, string>
    requires AllKeyed(rs)
  {
    if |rs| == 0 then map[]
    else KeyMap(rs[..|rs| - 1], platform)[Key(rs[|rs| - 1], platform) := rs[|rs| - 1].path]
  }

  /** Every cached path can be read. */
  predicate CacheInFs(m: map<string, string>, fs: Snapshot) {
    forall k :: k in m ==> m[k] in fs
  }

  /** For each cached key, the target record `FileInfoParser::new` rebuilds from the cached path. */
  function Rebuilt(m: map<string, string>, targetDir: string, fs: Snapshot): map<string, FileInfoParser>
    requires CacheInFs(m, fs)
  {
    map k | k in m :: NewFileInfoParser(m[k], targetDir, fs[m[k]])
  }

  /**
    `in_first_only` and `in_second_only`: the records, in order, whose key
    the other root's cache lacks. Both loops apply this one filter.
   */
  function Unmatched(rs: seq<FileInfoParser>, m: map<string, string>, platform: Platform): seq<FileInfoParser>
    requires AllKeyed(rs)
  {
    if |rs| == 0 then []
    else
      var last := rs[|rs| - 1];
      Unmatched(rs[..|rs| - 1], m, platform) + (if Key(last, platform) in m then [] else [last])
  }

  /**
    `in_both`: the source records whose key the target cache holds, each
    paired with its partner, the target record rebuilt for that key.
   */
  function InBoth(rs: seq<FileInfoParser>, partners: map<string, FileInfoParser>, platform: Platform)
    : seq<(FileInfoParser, FileInfoParser)>
    requires AllKeyed(rs)
  {
    if |rs| == 0 then []
    else
      var last := rs[|rs| - 1];
      InBoth(rs[..|rs| - 1], partners, platform)
        + (if Key(last, platform) in partners then [(last, partners[Key(last, platform)])] else [])
  }

  function CreateActions(rs: seq<FileInfoParser>): seq<FileInfoParserAction> {
    seq(|rs|, i requires 0 <= i < |rs| => NewSourceAction(rs[i], Create))
  }

  function DeleteActions(rs: seq<FileInfoParser>): seq<FileInfoParserAction> {
    seq(|rs|, i requires 0 <= i < |rs| => NewDestinationAction(rs[i], Delete))
  }

  /** A file/file pair whose length or modification time differs. */
  predicate NeedsUpdate(p: (FileInfoParser, FileInfoParser)) {
    p.0.isFile && p.1.isFile
    && (p.0.metadata.len != p.1.metadata.len || p.0.metadata.modified != p.1.metadata.modified)
  }

  /** The update actions of the paired records, directory pairs and unchanged files skipped. */
  function UpdateActions(pairs: seq<(FileInfoParser, FileInfoParser)>): seq<FileInfoParserAction> {
    if |pairs| == 0 then []
    else
      var last := pairs[|pairs| - 1];
      UpdateActions(pairs[..|pairs| - 1])
        + (if !last.0.isFile || !last.1.isFile then []
           else if last.0.metadata.len != last.1.metadata.len || last.0.metadata.modified != last.1.metadata.modified
           then [NewAction(last.0, last.1, Update)]
           else [])
  }

  /** The root can be walked and every record built under it has a segment. */
  predicate Walkable(root: string, fs: Snapshot, listing: Listing) {
    && root in listing
    && forall p :: p in listing[root] ==>
         p in fs && DifferingSegment(NormalizedSplitter(root), NormalizedSplitter(p)).Some?
  }

  lemma WalkableRecords(root: string, fs: Snapshot, listing: Listing)
    requires Walkable(root, fs, listing)
    ensures AllKeyed(Records(root, listing[root], fs))
  {
    var paths := listing[root];
    forall i | 0 <= i < |paths|
      ensures HasKey(Records(root, paths, fs)[i])
    {
      assert paths[i] in paths;
    }
  }

  /** The actions for the source records `results1` and the target records `results2`. */
  function Actions(results1: seq<FileInfoParser>, results2: seq<FileInfoParser>, targetDir: string, fs: Snapshot,
                   platform: Platform): seq<FileInfoParserAction>
    requires AllKeyed(results1) && AllKeyed(results2) && CacheInFs(KeyMap(results2, platform), fs)
  {
    var files1Hash := KeyMap(results1, platform);
    var files2Hash := KeyMap(results2, platform);
    CreateActions(Unmatched(results1, files2Hash, platform))
      + DeleteActions(Unmatched(results2, files1Hash, platform))
      + UpdateActions(InBoth(results1, Rebuilt(files2Hash, targetDir, fs), platform))
  }

  /** The action list for one source and target root. */
  function TargetActions(sourceDir: string, targetDir: string, fs: Snapshot, listing: Listing, platform: Platform)
    : seq<FileInfoParserAction>
    requires Walkable(sourceDir, fs, listing) && Walkable(targetDir, fs, listing)
  {
    WalkableRecords(sourceDir, fs, listing);
    WalkableRecords(targetDir, fs, listing);
    CachedPathsReadable(targetDir, listing[targetDir], fs, platform);
    Actions(Records(sourceDir, listing[sourceDir], fs), Records(targetDir, listing[targetDir], fs), targetDir, fs, platform)
  }

  /** The roots are the same path to `identical`. */
  predicate SameRoots(sourceDir: string, targetDir: string) {
    IsIdentical(NormalizedSplitter(sourceDir), NormalizedSplitter(targetDir))
  }

  /** What the unwraps of the merge demand: every root it walks can be walked. */
  predicate MergeReady(sourceDir: string, targetDirs: seq<string>, fs: Snapshot, listing: Listing) {
    forall t :: t in targetDirs && !SameRoots(sourceDir, t) ==>
      Walkable(sourceDir, fs, listing) && Walkable(t, fs, listing)
  }

  /** `three_way_merge`: one action list per target root that is not the source root, in order. */
  function Merge(sourceDir: string, targetDirs: seq<string>, fs: Snapshot, listing: Listing, platform: Platform)
    : seq<FileInfoParserActionList>
    requires MergeReady(sourceDir, targetDirs, fs, listing)
  {
    if |targetDirs| == 0 then []
    else
      var t := targetDirs[|targetDirs| - 1];
      assert forall x :: x in targetDirs[..|targetDirs| - 1] ==> x in targetDirs;
      Merge(sourceDir, targetDirs[..|targetDirs| - 1], fs, listing, platform) + ListFor(sourceDir, t, fs, listing, platform)
  }

  /** The lists one target root contributes to the merge: none for the source root itself, else its own. */
  function ListFor(sourceDir: string, t: string, fs: Snapshot, listing: Listing, platform: Platform)
    : (r: seq<FileInfoParserActionList>)
    requires !SameRoots(sourceDir, t) ==> Walkable(sourceDir, fs, listing) && Walkable(t, fs, listing)
    ensures |r| == (if SameRoots(sourceDir, t) then 0 else 1)
    ensures forall l :: l in r ==> l.sourceDirectory == sourceDir && l.targetDirectory == t
  {
    if SameRoots(sourceDir, t) then []
    else [FileInfoParserActionList(sourceDir, t, TargetActions(sourceDir, t, fs, listing, platform))]
  }

  /** The merge of a non-empty list of roots: the merge of all but the last, then the last root's lists. */
  lemma MergeUnfold(sourceDir: string, targetDirs: seq<string>, fs: Snapshot, listing: Listing, platform: Platform)
    requires |targetDirs| > 0 && MergeReady(sourceDir, targetDirs, fs, listing)
    ensures MergeReady(sourceDir, targetDirs[..|targetDirs| - 1], fs, listing)
    ensures var t := targetDirs[|targetDirs| - 1];
      (!SameRoots(sourceDir, t) ==> Walkable(sourceDir, fs, listing) && Walkable(t, fs, listing))
      && Merge(sourceDir, targetDirs, fs, listing, platform)
         == Merge(sourceDir, targetDirs[..|targetDirs| - 1], fs, listing, platform) + ListFor(sourceDir, t, fs, listing, platform)
  {
    assert forall x :: x in targetDirs[..|targetDirs| - 1] ==> x in targetDirs;
    assert targetDirs[|targetDirs| - 1] in targetDirs;
  }

  /** Number of target roots that are not the source root. */
  function DistinctTargets(sourceDir: string, targetDirs: seq<string>): nat {
    if |targetDirs| == 0 then 0
    else
      var last := if SameRoots(sourceDir, targetDirs[|targetDirs| - 1]) then 0 else 1;
      DistinctTargets(sourceDir, targetDirs[..|targetDirs| - 1]) + last
  }

  // ---------------------------------------------------------------------
  // Properties of the specification
  // ---------------------------------------------------------------------

  /**
    The path cache is last-writer-wins: a key is cached iff some record has
    it, and then it holds the path of the last record with that key.
   */
  lemma {:induction false} KeyMapLastWriterWins(rs: seq<FileInfoParser>, platform: Platform, k: string)
    requires AllKeyed(rs)
    ensures k in KeyMap(rs, platform) <==> exists i :: 0 <= i < |rs| && Key(rs[i], platform) == k
    ensures k in KeyMap(rs, platform) ==>
      exists i :: 0 <= i < |rs| && Key(rs[i], platform) == k && KeyMap(rs, platform)[k] == rs[i].path
        && forall j :: i < j < |rs| ==> Key(rs[j], platform) != k
    decreases |rs|
  {
    if |rs| > 0 {
      var n := |rs| - 1;
      var init := rs[..n];
      KeyMapLastWriterWins(init, platform, k);
      assert KeyMap(rs, platform) == KeyMap(init, platform)[Key(rs[n], platform) := rs[n].path];
      assert forall i :: 0 <= i < n ==> init[i] == rs[i];
      if Key(rs[n], platform) == k {
        assert Key(rs[n], platform) == k && KeyMap(rs, platform)[k] == rs[n].path;
      } else {
        assert k in KeyMap(rs, platform) <==> k in KeyMap(init, platform);
        if k in KeyMap(init, platform) {
          var i :| 0 <= i < n && Key(init[i], platform) == k && KeyMap(init, platform)[k] == init[i].path
            && forall j :: i < j < n ==> Key(init[j], platform) != k;
          assert Key(rs[i], platform) == k && KeyMap(rs, platform)[k] == rs[i].path
            && forall j :: i < j < |rs| ==> Key(rs[j], platform) != k;
        } else {
          assert forall i :: 0 <= i < |rs| ==> Key(rs[i], platform) != k;
        }
      }
    }
  }

  /** Every path cached for a walked root is one of its listed paths, so it can be read. */
  lemma CachedPathsReadable(root: string, paths: seq<string>, fs: Snapshot, platform: Platform)
    requires forall p :: p in paths ==> p in fs
    requires AllKeyed(Records(root, paths, fs))
    ensures CacheInFs(KeyMap(Records(root, paths, fs), platform), fs)
  {
    var rs := Records(root, paths, fs);
    forall k | k in KeyMap(rs, platform)
      ensures KeyMap(rs, platform)[k] in fs
    {
      KeyMapLastWriterWins(rs, platform, k);
      var i :| 0 <= i < |rs| && Key(rs[i], platform) == k && KeyMap(rs, platform)[k] == rs[i].path;
      assert paths[i] in paths;
    }
  }

  /** The filter keeps, in order, exactly the records whose key the cache lacks. */
  lemma {:induction false} UnmatchedMembers(rs: seq<FileInfoParser>, m: map<string, string>, platform: Platform)
    requires AllKeyed(rs)
    ensures forall r :: r in Unmatched(rs, m, platform) ==> r in rs
    ensures forall i :: 0 <= i < |rs| ==> (rs[i] in Unmatched(rs, m, platform) <==> Key(rs[i], platform) !in m)
    decreases |rs|
  {
    if |rs| > 0 {
      var n := |rs| - 1;
      var init := rs[..n];
      UnmatchedMembers(init, m, platform);
      var prev := Unmatched(init, m, platform);
      var extra := if Key(rs[n], platform) in m then [] else [rs[n]];
      assert Unmatched(rs, m, platform) == prev + extra;
      assert forall i :: 0 <= i < n ==> init[i] == rs[i];
      forall r | r in prev + extra
        ensures r in rs
      {
        InConcat(prev, extra, r);
        if r in prev {
          var j :| 0 <= j < n && init[j] == r;
        }
      }
      forall i | 0 <= i < |rs|
        ensures rs[i] in prev + extra <==> Key(rs[i], platform) !in m
      {
        InConcat(prev, extra, rs[i]);
        if i == n && rs[n] in prev {
          var j :| 0 <= j < n && init[j] == rs[n];
        }
      }
    }
  }

  /** Every pair of `in_both` is a source record whose key has a partner, with that partner. */
  lemma {:induction false} BothSound(rs: seq<FileInfoParser>, partners: map<string, FileInfoParser>, platform: Platform)
    requires AllKeyed(rs)
    ensures forall p :: p in InBoth(rs, partners, platform) ==>
      p.0 in rs && HasKey(p.0) && Key(p.0, platform) in partners && p.1 == partners[Key(p.0, platform)]
    decreases |rs|
  {
    if |rs| > 0 {
      var n := |rs| - 1;
      var init := rs[..n];
      BothSound(init, partners, platform);
      forall p | p in InBoth(rs, partners, platform)
        ensures p.0 in rs && HasKey(p.0) && Key(p.0, platform) in partners && p.1 == partners[Key(p.0, platform)]
      {
        if p in InBoth(init, partners, platform) {
          var j :| 0 <= j < n && init[j] == p.0;
          assert rs[j] == p.0;
        }
      }
    }
  }

  /** Every source record whose key has a partner is in `in_both`, with that partner. */
  lemma {:induction false} BothComplete(rs: seq<FileInfoParser>, partners: map<string, FileInfoParser>, platform: Platform)
    requires AllKeyed(rs)
    ensures forall i :: 0 <= i < |rs| && Key(rs[i], platform) in partners ==>
      (rs[i], partners[Key(rs[i], platform)]) in InBoth(rs, partners, platform)
    decreases |rs|
  {
    if |rs| > 0 {
      var n := |rs| - 1;
      var init := rs[..n];
      BothComplete(init, partners, platform);
      forall i | 0 <= i < |rs| && Key(rs[i], platform) in partners
        ensures (rs[i], partners[Key(rs[i], platform)]) in InBoth(rs, partners, platform)
      {
        if i < n {
          assert init[i] == rs[i];
        }
      }
    }
  }

  /** Every source record lands in exactly one of `in_first_only` and `in_both`. */
  lemma {:induction false} SourcePartition(rs: seq<FileInfoParser>, m: map<string, string>, targetDir: string,
                                           fs: Snapshot, platform: Platform)
    requires AllKeyed(rs) && CacheInFs(m, fs)
    ensures |Unmatched(rs, m, platform)| + |InBoth(rs, Rebuilt(m, targetDir, fs), platform)| == |rs|
    decreases |rs|
  {
    if |rs| > 0 {
      SourcePartition(rs[..|rs| - 1], m, targetDir, fs, platform);
    }
  }

  /** `in_second_only` holds exactly the target records whose key no source record has. */
  lemma {:induction false} TargetOnlyIff(rs1: seq<FileInfoParser>, rs2: seq<FileInfoParser>, platform: Platform)
    requires AllKeyed(rs1) && AllKeyed(rs2)
    ensures forall r :: r in Unmatched(rs2, KeyMap(rs1, platform), platform) ==> r in rs2
    ensures forall i :: 0 <= i < |rs2| ==>
      ((rs2[i] in Unmatched(rs2, KeyMap(rs1, platform), platform))
       <==> (forall j :: 0 <= j < |rs1| ==> Key(rs1[j], platform) != Key(rs2[i], platform)))
  {
    var m := KeyMap(rs1, platform);
    UnmatchedMembers(rs2, m, platform);
    forall i | 0 <= i < |rs2|
      ensures Key(rs2[i], platform) !in m <==> forall j :: 0 <= j < |rs1| ==> Key(rs1[j], platform) != Key(rs2[i], platform)
    {
      KeyMapLastWriterWins(rs1, platform, Key(rs2[i], platform));
    }
  }

  /**
    The two sides of a pair share their key: the partner rebuilt from the
    cached path is the last target record with the source record's key.
   */
  lemma BothPairsShareKey(rs1: seq<FileInfoParser>, targetDir: string, paths2: seq<string>, fs: Snapshot, platform: Platform)
    requires forall p :: p in paths2 ==> p in fs
    requires AllKeyed(rs1) && AllKeyed(Records(targetDir, paths2, fs))
    ensures var rs2 := Records(targetDir, paths2, fs);
      CacheInFs(KeyMap(rs2, platform), fs) &&
      forall p :: p in InBoth(rs1, Rebuilt(KeyMap(rs2, platform), targetDir, fs), platform) ==>
        p.1 in rs2 && HasKey(p.0) && HasKey(p.1) && Key(p.1, platform) == Key(p.0, platform)
  {
    var rs2 := Records(targetDir, paths2, fs);
    var m := KeyMap(rs2, platform);
    CachedPathsReadable(targetDir, paths2, fs, platform);
    var partners := Rebuilt(m, targetDir, fs);
    BothSound(rs1, partners, platform);
    forall p | p in InBoth(rs1, partners, platform)
      ensures p.1 in rs2 && HasKey(p.0) && HasKey(p.1) && Key(p.1, platform) == Key(p.0, platform)
    {
      var k := Key(p.0, platform);
      KeyMapLastWriterWins(rs2, platform, k);
      var i :| 0 <= i < |rs2| && Key(rs2[i], platform) == k && m[k] == rs2[i].path;
      assert rs2[i].path == paths2[i];
      assert p.1 == partners[k] == rs2[i];
    }
  }

  /** Exactly the file/file pairs whose length or modification time differs produce an update. */
  lemma {:induction false} UpdateIff(pairs: seq<(FileInfoParser, FileInfoParser)>, a: FileInfoParserAction)
    ensures a in UpdateActions(pairs) <==>
      exists p :: p in pairs && NeedsUpdate(p) && a == NewAction(p.0, p.1, Update)
    decreases |pairs|
  {
    if |pairs| > 0 {
      var n := |pairs| - 1;
      UpdateIff(pairs[..n], a);
      assert forall p :: p in pairs <==> p in pairs[..n] || p == pairs[n] by {
        assert pairs == pairs[..n] + [pairs[n]];
      }
    }
  }

  /** The position of each kind of action in the list: creates, then deletes, then updates. */
  function Rank(t: ActionType): nat {
    match t
    case Create => 0
    case Delete => 1
    case Update => 2
  }

  /** Every action of `UpdateActions` is an update of a file/file pair that differs. */
  lemma {:induction false} UpdateActionsShape(pairs: seq<(FileInfoParser, FileInfoParser)>)
    ensures forall a :: a in UpdateActions(pairs) ==>
      a.actionType == Update && a.source.Some? && a.destination.Some?
      && NeedsUpdate((a.source.value, a.destination.value))
      && (a.source.value, a.destination.value) in pairs
    decreases |pairs|
  {
    if |pairs| > 0 {
      var n := |pairs| - 1;
      UpdateActionsShape(pairs[..n]);
      assert forall p :: p in pairs[..n] ==> p in pairs;
    }
  }

  /**
    The actions for two record lists are the creates, then the deletes,
    then the updates, each carrying the records its kind needs; an update
    comes from a pair of `in_both`.
   */
  lemma ActionsShape(rs1: seq<FileInfoParser>, rs2: seq<FileInfoParser>, targetDir: string, fs: Snapshot, platform: Platform)
    requires AllKeyed(rs1) && AllKeyed(rs2) && CacheInFs(KeyMap(rs2, platform), fs)
    ensures var actions := Actions(rs1, rs2, targetDir, fs, platform);
      && (forall i, j :: 0 <= i < j < |actions| ==> Rank(actions[i].actionType) <= Rank(actions[j].actionType))
      && (forall a :: a in actions && a.actionType == Create ==> a.source.Some? && a.destination.None?)
      && (forall a :: a in actions && a.actionType == Delete ==> a.source.None? && a.destination.Some?)
      && (forall a :: a in actions && a.actionType == Update ==>
            a.source.Some? && a.destination.Some? && NeedsUpdate((a.source.value, a.destination.value))
            && (a.source.value, a.destination.value) in InBoth(rs1, Rebuilt(KeyMap(rs2, platform), targetDir, fs), platform))
  {
    KindsShape(Unmatched(rs1, KeyMap(rs2, platform), platform), Unmatched(rs2, KeyMap(rs1, platform), platform),
               InBoth(rs1, Rebuilt(KeyMap(rs2, platform), targetDir, fs), platform));
  }

  /** The creates of `xs`, then the deletes of `ys`, then the updates of `pairs`: ordered by kind, each of its shape. */
  lemma KindsShape(xs: seq<FileInfoParser>, ys: seq<FileInfoParser>, pairs: seq<(FileInfoParser, FileInfoParser)>)
    ensures var actions := CreateActions(xs) + DeleteActions(ys) + UpdateActions(pairs);
      && (forall i, j :: 0 <= i < j < |actions| ==> Rank(actions[i].actionType) <= Rank(actions[j].actionType))
      && (forall a :: a in actions && a.actionType == Create ==> a.source.Some? && a.destination.None?)
      && (forall a :: a in actions && a.actionType == Delete ==> a.source.None? && a.destination.Some?)
      && (forall a :: a in actions && a.actionType == Update ==>
            a.source.Some? && a.destination.Some? && NeedsUpdate((a.source.value, a.destination.value))
            && (a.source.value, a.destination.value) in pairs)
  {
    var creates := CreateActions(xs);
    var deletes := DeleteActions(ys);
    var updates := UpdateActions(pairs);
    var actions := creates + deletes + updates;
    UpdateActionsShape(pairs);
    assert forall i :: 0 <= i < |actions| ==>
      Rank(actions[i].actionType) == if i < |creates| then 0 else if i < |creates| + |deletes| then 1 else 2 by {
      forall i | 0 <= i < |actions|
        ensures Rank(actions[i].actionType) == if i < |creates| then 0 else if i < |creates| + |deletes| then 1 else 2
      {
        if i >= |creates| + |deletes| {
          assert actions[i] == updates[i - |creates| - |deletes|];
          assert actions[i] in updates;
        }
      }
    }
    forall a | a in actions
      ensures a.actionType == Create ==> a.source.Some? && a.destination.None?
      ensures a.actionType == Delete ==> a.source.None? && a.destination.Some?
      ensures a.actionType == Update ==> a in updates
    {
      InConcat(creates + deletes, updates, a);
      InConcat(creates, deletes, a);
      if a in updates {
      } else if a in deletes {
        var i :| 0 <= i < |deletes| && deletes[i] == a;
      } else {
        var i :| 0 <= i < |creates| && creates[i] == a;
      }
    }
  }

  /**
    The action list for two roots holds the creates, then the deletes, then
    the updates; an update pairs two files with the same key whose length
    or modification time differs.
   */
  lemma ActionListShape(sourceDir: string, targetDir: string, fs: Snapshot, listing: Listing, platform: Platform)
    requires Walkable(sourceDir, fs, listing) && Walkable(targetDir, fs, listing)
    ensures var actions := TargetActions(sourceDir, targetDir, fs, listing, platform);
      && (forall i, j :: 0 <= i < j < |actions| ==> Rank(actions[i].actionType) <= Rank(actions[j].actionType))
      && (forall a :: a in actions && a.actionType == Create ==> a.source.Some? && a.destination.None?)
      && (forall a :: a in actions && a.actionType == Delete ==> a.source.None? && a.destination.Some?)
      && (forall a :: a in actions && a.actionType == Update ==>
            a.source.Some? && a.destination.Some? && NeedsUpdate((a.source.value, a.destination.value))
            && HasKey(a.source.value) && HasKey(a.destination.value)
            && Key(a.source.value, platform) == Key(a.destination.value, platform))
  {
    var rs1 := Records(sourceDir, listing[sourceDir], fs);
    var rs2 := Records(targetDir, listing[targetDir], fs);
    WalkableRecords(sourceDir, fs, listing);
    WalkableRecords(targetDir, fs, listing);
    CachedPathsReadable(targetDir, listing[targetDir], fs, platform);
    ActionsShape(rs1, rs2, targetDir, fs, platform);
    BothPairsShareKey(rs1, targetDir, listing[targetDir], fs, platform);
  }

  /** The actions of one kind, in list order. */
  function OfKind(actions: seq<FileInfoParserAction>, t: ActionType): seq<FileInfoParserAction> {
    if |actions| == 0 then []
    else OfKind(actions[..|actions| - 1], t) + (if actions[|actions| - 1].actionType == t then [actions[|actions| - 1]] else [])
  }

  lemma {:induction false} OfKindConcat(xs: seq<FileInfoParserAction>, ys: seq<FileInfoParserAction>, t: ActionType)
    ensures OfKind(xs + ys, t) == OfKind(xs, t) + OfKind(ys, t)
    decreases |ys|
  {
    if |ys| == 0 {
      AppendEmpty(xs);
      AppendEmpty(OfKind(xs, t));
    } else {
      var n := |ys| - 1;
      OfKindConcat(xs, ys[..n], t);
      SnocInit(xs, ys);
      var e := if ys[n].actionType == t then [ys[n]] else [];
      AppendAssoc(OfKind(xs, t), OfKind(ys[..n], t), e);
    }
  }

  lemma {:induction false} OfKindAll(xs: seq<FileInfoParserAction>, t: ActionType)
    requires forall i :: 0 <= i < |xs| ==> xs[i].actionType == t
    ensures OfKind(xs, t) == xs
    decreases |xs|
  {
    if |xs| > 0 {
      OfKindAll(xs[..|xs| - 1], t);
    }
  }

  lemma {:induction false} OfKindNone(xs: seq<FileInfoParserAction>, t: ActionType)
    requires forall i :: 0 <= i < |xs| ==> xs[i].actionType != t
    ensures OfKind(xs, t) == []
    decreases |xs|
  {
    if |xs| > 0 {
      OfKindNone(xs[..|xs| - 1], t);
    }
  }

  /**
    Exchanging the two record lists exchanges creates and deletes: the
    creates of one direction carry, one for one and in order, the records
    that the deletes of the other direction carry.
   */
  lemma SwapSwapsCreatesAndDeletes(rsA: seq<FileInfoParser>, rsB: seq<FileInfoParser>, a: string, b: string,
                                   fs: Snapshot, platform: Platform)
    requires AllKeyed(rsA) && AllKeyed(rsB)
    requires CacheInFs(KeyMap(rsA, platform), fs) && CacheInFs(KeyMap(rsB, platform), fs)
    ensures var creates := OfKind(Actions(rsA, rsB, b, fs, platform), Create);
      var deletes := OfKind(Actions(rsB, rsA, a, fs, platform), Delete);
      |creates| == |deletes| && forall i :: 0 <= i < |creates| ==> creates[i].source == deletes[i].destination
  {
    var mA := KeyMap(rsA, platform);
    var mB := KeyMap(rsB, platform);
    CreatesOfActions(rsA, rsB, b, fs, platform);
    DeletesOfActions(rsB, rsA, a, fs, platform);
  }

  /** Filtered by kind, the creates of `xs`, deletes of `ys` and updates of `pairs` give back the creates and the deletes. */
  lemma KindsOfKind(xs: seq<FileInfoParser>, ys: seq<FileInfoParser>, pairs: seq<(FileInfoParser, FileInfoParser)>)
    ensures OfKind(CreateActions(xs) + DeleteActions(ys) + UpdateActions(pairs), Create) == CreateActions(xs)
    ensures OfKind(CreateActions(xs) + DeleteActions(ys) + UpdateActions(pairs), Delete) == DeleteActions(ys)
  {
    UpdateActionsShape(pairs);
    KindsOfKindCreate(xs, ys, pairs);
    KindsOfKindDelete(xs, ys, pairs);
  }

  lemma KindsOfKindCreate(xs: seq<FileInfoParser>, ys: seq<FileInfoParser>, pairs: seq<(FileInfoParser, FileInfoParser)>)
    requires forall a :: a in UpdateActions(pairs) ==> a.actionType == Update
    ensures OfKind(CreateActions(xs) + DeleteActions(ys) + UpdateActions(pairs), Create) == CreateActions(xs)
  {
    var c := CreateActions(xs);
    var d := DeleteActions(ys);
    var u := UpdateActions(pairs);
    OfKindAll(c, Create);
    OfKindNone(d, Create);
    OfKindNone(u, Create);
    OfKindConcat(c, d, Create);
    OfKindConcat(c + d, u, Create);
  }

  lemma KindsOfKindDelete(xs: seq<FileInfoParser>, ys: seq<FileInfoParser>, pairs: seq<(FileInfoParser, FileInfoParser)>)
    requires forall a :: a in UpdateActions(pairs) ==> a.actionType == Update
    ensures OfKind(CreateActions(xs) + DeleteActions(ys) + UpdateActions(pairs), Delete) == DeleteActions(ys)
  {
    var c := CreateActions(xs);
    var d := DeleteActions(ys);
    var u := UpdateActions(pairs);
    OfKindNone(c, Delete);
    OfKindAll(d, Delete);
    OfKindNone(u, Delete);
    OfKindConcat(c, d, Delete);
    OfKindConcat(c + d, u, Delete);
  }

  /** The creates of an action list are those of the source-only records. */
  lemma CreatesOfActions(rs1: seq<FileInfoParser>, rs2: seq<FileInfoParser>, targetDir: string, fs: Snapshot, platform: Platform)
    requires AllKeyed(rs1) && AllKeyed(rs2) && CacheInFs(KeyMap(rs2, platform), fs)
    ensures OfKind(Actions(rs1, rs2, targetDir, fs, platform), Create)
      == CreateActions(Unmatched(rs1, KeyMap(rs2, platform), platform))
  {
    KindsOfKind(Unmatched(rs1, KeyMap(rs2, platform), platform), Unmatched(rs2, KeyMap(rs1, platform), platform),
                InBoth(rs1, Rebuilt(KeyMap(rs2, platform), targetDir, fs), platform));
  }

  /** The deletes of an action list are those of the target-only records. */
  lemma DeletesOfActions(rs1: seq<FileInfoParser>, rs2: seq<FileInfoParser>, targetDir: string, fs: Snapshot, platform: Platform)
    requires AllKeyed(rs1) && AllKeyed(rs2) && CacheInFs(KeyMap(rs2, platform), fs)
    ensures OfKind(Actions(rs1, rs2, targetDir, fs, platform), Delete)
      == DeleteActions(Unmatched(rs2, KeyMap(rs1, platform), platform))
  {
    KindsOfKind(Unmatched(rs1, KeyMap(rs2, platform), platform), Unmatched(rs2, KeyMap(rs1, platform), platform),
                InBoth(rs1, Rebuilt(KeyMap(rs2, platform), targetDir, fs), platform));
  }

  /**
    Swapping the roots swaps creates and deletes: the creates for source
    `a` and target `b` carry, one for one and in order, the records that
    the deletes for source `b` and target `a` carry.
   */
  lemma SwapRootsSwapsCreatesAndDeletes(a: string, b: string, fs: Snapshot, listing: Listing, platform: Platform)
    requires Walkable(a, fs, listing) && Walkable(b, fs, listing)
    ensures var creates := OfKind(TargetActions(a, b, fs, listing, platform), Create);
      var deletes := OfKind(TargetActions(b, a, fs, listing, platform), Delete);
      |creates| == |deletes| && forall i :: 0 <= i < |creates| ==> creates[i].source == deletes[i].destination
  {
    WalkableRecords(a, fs, listing);
    WalkableRecords(b, fs, listing);
    CachedPathsReadable(a, listing[a], fs, platform);
    CachedPathsReadable(b, listing[b], fs, platform);
    SwapSwapsCreatesAndDeletes(Records(a, listing[a], fs), Records(b, listing[b], fs), a, b, fs, platform);
  }

  /** The merge yields one list per target root that is not the source root. */
  lemma {:induction false} MergeCount(sourceDir: string, targetDirs: seq<string>, fs: Snapshot, listing: Listing, platform: Platform)
    requires MergeReady(sourceDir, targetDirs, fs, listing)
    ensures |Merge(sourceDir, targetDirs, fs, listing, platform)| == DistinctTargets(sourceDir, targetDirs)
    decreases |targetDirs|
  {
    if |targetDirs| > 0 {
      var n := |targetDirs| - 1;
      MergeUnfold(sourceDir, targetDirs, fs, listing, platform);
      MergeCount(sourceDir, targetDirs[..n], fs, listing, platform);
    }
  }

  /**
    A list of the merge for `sourceDir`: tagged with the source root and
    a target root that is not `identical` to it, holding that pair's actions.
   */
  predicate SoundList(sourceDir: string, l: FileInfoParserActionList, fs: Snapshot, listing: Listing, platform: Platform) {
    l.sourceDirectory == sourceDir && !SameRoots(sourceDir, l.targetDirectory)
    && Walkable(sourceDir, fs, listing) && Walkable(l.targetDirectory, fs, listing)
    && l.actions == TargetActions(sourceDir, l.targetDirectory, fs, listing, platform)
  }

  /** Every list of the merge is sound and belongs to one of the target roots. */
  lemma {:induction false} MergeSound(sourceDir: string, targetDirs: seq<string>, fs: Snapshot, listing: Listing, platform: Platform)
    requires MergeReady(sourceDir, targetDirs, fs, listing)
    ensures forall l :: l in Merge(sourceDir, targetDirs, fs, listing, platform) ==>
      l.targetDirectory in targetDirs && SoundList(sourceDir, l, fs, listing, platform)
    decreases |targetDirs|
  {
    if |targetDirs| > 0 {
      var n := |targetDirs| - 1;
      var init := targetDirs[..n];
      var last := targetDirs[n];
      MergeUnfold(sourceDir, targetDirs, fs, listing, platform);
      MergeSound(sourceDir, init, fs, listing, platform);
      var prev := Merge(sourceDir, init, fs, listing, platform);
      var extra := ListFor(sourceDir, last, fs, listing, platform);
      InitLast(targetDirs);
      ListForSound(sourceDir, last, fs, listing, platform);
      forall l: FileInfoParserActionList | l in prev + extra
        ensures l.targetDirectory in targetDirs && SoundList(sourceDir, l, fs, listing, platform)
      {
        InConcat(prev, extra, l);
      }
    }
  }

  lemma ListForSound(sourceDir: string, t: string, fs: Snapshot, listing: Listing, platform: Platform)
    requires !SameRoots(sourceDir, t) ==> Walkable(sourceDir, fs, listing) && Walkable(t, fs, listing)
    ensures forall l :: l in ListFor(sourceDir, t, fs, listing, platform) ==>
      l.targetDirectory == t && SoundList(sourceDir, l, fs, listing, platform)
  {
  }

  /** Every target root that is not `identical` to the source root gets a list. */
  lemma {:induction false} MergeComplete(sourceDir: string, targetDirs: seq<string>, fs: Snapshot, listing: Listing, platform: Platform)
    requires MergeReady(sourceDir, targetDirs, fs, listing)
    ensures forall t :: t in targetDirs && !SameRoots(sourceDir, t) ==>
      exists l :: l in Merge(sourceDir, targetDirs, fs, listing, platform) && l.targetDirectory == t
    decreases |targetDirs|
  {
    if |targetDirs| > 0 {
      var n := |targetDirs| - 1;
      var init := targetDirs[..n];
      var last := targetDirs[n];
      MergeUnfold(sourceDir, targetDirs, fs, listing, platform);
      MergeComplete(sourceDir, init, fs, listing, platform);
      var prev := Merge(sourceDir, init, fs, listing, platform);
      var extra := ListFor(sourceDir, last, fs, listing, platform);
      InitLast(targetDirs);
      forall t | t in targetDirs && !SameRoots(sourceDir, t)
        ensures exists l: FileInfoParserActionList :: l in prev + extra && l.targetDirectory == t
      {
        InConcat(init, [last], t);
        if t in init {
          var l: FileInfoParserActionList :| l in prev && l.targetDirectory == t;
          InConcat(prev, extra, l);
        } else {
          assert extra[0] in extra;
          InConcat(prev, extra, extra[0]);
        }
      }
    }
  }

  /** There is some list exactly when some target root is not the source root. */
  lemma {:induction false} DistinctTargetsPositive(sourceDir: string, targetDirs: seq<string>)
    ensures DistinctTargets(sourceDir, targetDirs) > 0 <==> exists t :: t in targetDirs && !SameRoots(sourceDir, t)
    decreases |targetDirs|
  {
    if |targetDirs| > 0 {
      var n := |targetDirs| - 1;
      var init := targetDirs[..n];
      var last := targetDirs[n];
      DistinctTargetsPositive(sourceDir, init);
      InitLast(targetDirs);
      if DistinctTargets(sourceDir, targetDirs) > 0 {
        if DistinctTargets(sourceDir, init) > 0 {
          var t :| t in init && !SameRoots(sourceDir, t);
          InConcat(init, [last], t);
        } else {
          assert last in targetDirs;
        }
      }
      forall t | t in targetDirs && !SameRoots(sourceDir, t)
        ensures DistinctTargets(sourceDir, targetDirs) > 0
      {
        InConcat(init, [last], t);
      }
    }
  }

  // ---------------------------------------------------------------------
  // ChangeDetector
  // ---------------------------------------------------------------------

  /** The key of one record, as the loops compute it. */
  method SegmentKey(r: FileInfoParser, platform: Platform) returns (key: string)
    requires HasKey(r)
    ensures key == Key(r, platform)
  {
    var segmentString := GetSegmentString(r.segment.value, PlatformSeparator(platform));
    key := LowerStr(segmentString);
  }

  /** "Building path caches": every record's key inserted with its path, in order. */
  method BuildPathCache(records: seq<FileInfoParser>, platform: Platform) returns (hash: map<string, string>)
    requires AllKeyed(records)
    ensures hash == KeyMap(records, platform)
  {
    hash := map[];
    for i := 0 to |records|
      invariant hash == KeyMap(records[..i], platform)
    {
      assert records[..i + 1][..i] == records[..i];
      var key := SegmentKey(records[i], platform);
      hash := hash[key := records[i].path];
    }
    assert records[..|records|] == records;
  }

  /** The source loop: each record goes to `in_first_only` or, with its partner, to `in_both`. */
  method ClassifySource(results1: seq<FileInfoParser>, files2Hash: map<string, string>, targetDir: string,
                        fs: Snapshot, platform: Platform)
    returns (inFirstOnly: seq<FileInfoParser>, inBoth: seq<(FileInfoParser, FileInfoParser)>)
    requires AllKeyed(results1) && CacheInFs(files2Hash, fs)
    ensures inFirstOnly == Unmatched(results1, files2Hash, platform)
    ensures inBoth == InBoth(results1, Rebuilt(files2Hash, targetDir, fs), platform)
  {
    inFirstOnly, inBoth := [], [];
    for i := 0 to |results1|
      invariant inFirstOnly == Unmatched(results1[..i], files2Hash, platform)
      invariant inBoth == InBoth(results1[..i], Rebuilt(files2Hash, targetDir, fs), platform)
    {
      SourceStep(results1, i, files2Hash, Rebuilt(files2Hash, targetDir, fs), platform);
      var file1 := results1[i];
      var key := SegmentKey(file1, platform);
      RebuiltAt(files2Hash, targetDir, fs, key);
      if key in files2Hash {
        var file2 := files2Hash[key];
        var fif := NewFileInfoParser(file2, targetDir, fs[file2]);
        inBoth := inBoth + [(file1, fif)];
      } else {
        inFirstOnly := inFirstOnly + [file1];
      }
    }
    assert results1[..|results1|] == results1;
  }

  /** One more source record extends `in_first_only` or `in_both` by itself. */
  lemma SourceStep(rs: seq<FileInfoParser>, i: nat, m: map<string, string>, partners: map<string, FileInfoParser>, platform: Platform)
    requires AllKeyed(rs) && i < |rs|
    ensures AllKeyed(rs[..i]) && AllKeyed(rs[..i + 1]) && HasKey(rs[i])
    ensures Unmatched(rs[..i + 1], m, platform)
      == Unmatched(rs[..i], m, platform) + (if Key(rs[i], platform) in m then [] else [rs[i]])
    ensures InBoth(rs[..i + 1], partners, platform)
      == InBoth(rs[..i], partners, platform)
         + (if Key(rs[i], platform) in partners then [(rs[i], partners[Key(rs[i], platform)])] else [])
  {
    PrefixOfPrefix(rs, i);
  }

  /** The rebuilt target records have the keys of the cache, each rebuilt from its cached path. */
  lemma RebuiltAt(m: map<string, string>, targetDir: string, fs: Snapshot, k: string)
    requires CacheInFs(m, fs)
    ensures k in Rebuilt(m, targetDir, fs) <==> k in m
    ensures k in m ==> m[k] in fs && Rebuilt(m, targetDir, fs)[k] == NewFileInfoParser(m[k], targetDir, fs[m[k]])
  {
  }

  /** The target loop: the records whose key the source cache lacks. */
  method ClassifyTarget(results2: seq<FileInfoParser>, files1Hash: map<string, string>, platform: Platform)
    returns (inSecondOnly: seq<FileInfoParser>)
    requires AllKeyed(results2)
    ensures inSecondOnly == Unmatched(results2, files1Hash, platform)
  {
    inSecondOnly := [];
    for i := 0 to |results2|
      invariant inSecondOnly == Unmatched(results2[..i], files1Hash, platform)
    {
      assert results2[..i + 1][..i] == results2[..i];
      var file2 := results2[i];
      var key := SegmentKey(file2, platform);
      if key !in files1Hash {
        inSecondOnly := inSecondOnly + [file2];
      }
    }
    assert results2[..|results2|] == results2;
  }

  /** The body of the per-target loop of `three_way_merge`, from the walks to the action list. */
  method MergeTarget(sourceDir: string, targetDir: string, fs: Snapshot, listing: Listing, platform: Platform)
    returns (actions: seq<FileInfoParserAction>)
    requires Walkable(sourceDir, fs, listing) && Walkable(targetDir, fs, listing)
    ensures actions == TargetActions(sourceDir, targetDir, fs, listing, platform)
  {
    var results1 := Records(sourceDir, listing[sourceDir], fs);
    var results2 := Records(targetDir, listing[targetDir], fs);
    WalkableRecords(sourceDir, fs, listing);
    WalkableRecords(targetDir, fs, listing);
    var files1Hash := BuildPathCache(results1, platform);
    var files2Hash := BuildPathCache(results2, platform);
    CachedPathsReadable(targetDir, listing[targetDir], fs, platform);
    var inFirstOnly, inBoth := ClassifySource(results1, files2Hash, targetDir, fs, platform);
    var inSecondOnly := ClassifyTarget(results2, files1Hash, platform);

    var firstPaths := CreateActions(inFirstOnly);
    var secondPaths := DeleteActions(inSecondOnly);
    actions := AppendUpdates(firstPaths + secondPaths, inBoth);
  }

  /** The update loop: appends an update for each file/file pair whose length or modification time differs. */
  method AppendUpdates(prefix: seq<FileInfoParserAction>, inBoth: seq<(FileInfoParser, FileInfoParser)>)
    returns (actions: seq<FileInfoParserAction>)
    ensures actions == prefix + UpdateActions(inBoth)
  {
    actions := prefix;
    for i := 0 to |inBoth|
      invariant actions == prefix + UpdateActions(inBoth[..i])
    {
      assert inBoth[..i + 1][..i] == inBoth[..i];
      var (first, second) := inBoth[i];
      if !first.isFile || !second.isFile {
        continue;
      }
      if first.metadata.len != second.metadata.len || first.metadata.modified != second.metadata.modified {
        actions := actions + [NewAction(first, second, Update)];
      }
    }
    assert inBoth[..|inBoth|] == inBoth;
  }

  /** Parses both roots and compares them with `identical`. */
  method CompareRoots(sourceDir: string, targetDir: string) returns (same: bool)
    ensures same == SameRoots(sourceDir, targetDir)
  {
    var sourcePp := BuildSegments(sourceDir);
    var destPp := BuildSegments(targetDir);
    same := Identical(sourcePp.segment.value, destPp.segment.value);
  }

  /** A prefix of ready target roots is ready. */
  lemma MergeReadyPrefix(sourceDir: string, targetDirs: seq<string>, k: nat, fs: Snapshot, listing: Listing)
    requires k <= |targetDirs| && MergeReady(sourceDir, targetDirs, fs, listing)
    ensures MergeReady(sourceDir, targetDirs[..k], fs, listing)
  {
    assert forall x :: x in targetDirs[..k] ==> x in targetDirs;
  }

  /** One more target root adds its list to the merge, unless it is the source root. */
  lemma MergeStep(sourceDir: string, targetDirs: seq<string>, k: nat, fs: Snapshot, listing: Listing, platform: Platform)
    requires k < |targetDirs| && MergeReady(sourceDir, targetDirs, fs, listing)
    ensures MergeReady(sourceDir, targetDirs[..k], fs, listing) && MergeReady(sourceDir, targetDirs[..k + 1], fs, listing)
    ensures !SameRoots(sourceDir, targetDirs[k]) ==>
      Walkable(sourceDir, fs, listing) && Walkable(targetDirs[k], fs, listing)
      && Merge(sourceDir, targetDirs[..k + 1], fs, listing, platform)
         == Merge(sourceDir, targetDirs[..k], fs, listing, platform)
            + [FileInfoParserActionList(sourceDir, targetDirs[k], TargetActions(sourceDir, targetDirs[k], fs, listing, platform))]
    ensures SameRoots(sourceDir, targetDirs[k]) ==>
      Merge(sourceDir, targetDirs[..k + 1], fs, listing, platform) == Merge(sourceDir, targetDirs[..k], fs, listing, platform)
  {
    MergeReadyPrefix(sourceDir, targetDirs, k, fs, listing);
    MergeReadyPrefix(sourceDir, targetDirs, k + 1, fs, listing);
    assert targetDirs[..k + 1][..k] == targetDirs[..k];
    assert targetDirs[k] in targetDirs;
  }

  /** `three_way_merge`: the loop over the target roots. */
  method ThreeWayMerge(sourceDir: string, targetDirs: seq<string>, fs: Snapshot, listing: Listing, platform: Platform)
    returns (results: seq<FileInfoParserActionList>)
    requires MergeReady(sourceDir, targetDirs, fs, listing)
    ensures results == Merge(sourceDir, targetDirs, fs, listing, platform)
  {
    results := [];
    MergeReadyPrefix(sourceDir, targetDirs, 0, fs, listing);
    for t := 0 to |targetDirs|
      invariant MergeReady(sourceDir, targetDirs[..t], fs, listing)
      invariant results == Merge(sourceDir, targetDirs[..t], fs, listing, platform)
    {
      MergeStep(sourceDir, targetDirs, t, fs, listing, platform);
      var targetDir := targetDirs[t];
      var same := CompareRoots(sourceDir, targetDir);
      if same {
        continue;
      }
      var actions := MergeTarget(sourceDir, targetDir, fs, listing, platform);
      results := results + [FileInfoParserActionList(sourceDir, targetDir, actions)];
    }
    assert targetDirs[..|targetDirs|] == targetDirs;
  }

  /** `changed`: true exactly when some target root is not the source root, even if every list is empty. */
  method Changed(sourceDir: string, targetDirs: seq<string>, fs: Snapshot, listing: Listing, platform: Platform)
    returns (b: bool)
    requires MergeReady(sourceDir, targetDirs, fs, listing)
    ensures b <==> exists t :: t in targetDirs && !SameRoots(sourceDir, t)
  {
    var merge := ThreeWayMerge(sourceDir, targetDirs, fs, listing, platform);
    MergeCount(sourceDir, targetDirs, fs, listing, platform);
    DistinctTargetsPositive(sourceDir, targetDirs);
    b := |merge| > 0;
  }
}
