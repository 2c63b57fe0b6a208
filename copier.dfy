/**
  The executor of src/copier.rs: for each action list, a stable sort by
  depth, a create/update queue and a reversed delete queue, then the two
  loops that perform the filesystem effects and count the operations.

  Filesystem effects are recorded as `Effect` values in the order they would
  be performed; the source performs them with `fs::copy`, `fs::create_dir`,
  `fs::remove_file` and `fs::remove_dir`.
 */
module Copier {
  import opened Wrappers
  import opened Paths
  import opened ChangeDetector
  import opened Sequences

  /** One filesystem effect of the executor. */
  datatype Effect =
    | Copy(from: string, to: string)
    | CreateDir(path: string)
    | RemoveFile(path: string)
    | RemoveDir(path: string)

  predicate IsRemoval(e: Effect) {
    e.RemoveFile? || e.RemoveDir?
  }

  // ---------------------------------------------------------------------
  // The queues
  // ---------------------------------------------------------------------

  predicate AllComparable(actions: seq<FileInfoParserAction>) {
    forall i :: 0 <= i < |actions| ==> Comparable(actions[i])
  }

  function Untag<T>(s: seq<(nat, T)>): seq<T> {
    seq(|s|, i requires 0 <= i < |s| => s[i].1)
  }

  /**
    Inserts `x` after every element whose key is at most its own, so that
    elements with equal keys keep their order.
   */
  function InsertByKey<T>(x: (nat, T), sorted: seq<(nat, T)>): (r: seq<(nat, T)>)
    ensures |r| == |sorted| + 1
  {
    if |sorted| == 0 then [x]
    else if sorted[|sorted| - 1].0 <= x.0 then sorted + [x]
    else
      var n := |sorted| - 1;
      InsertByKey(x, sorted[..n]) + [sorted[n]]
  }

  /** A stable insertion sort by key. */
  function SortByKey<T>(s: seq<(nat, T)>): (r: seq<(nat, T)>)
    ensures |r| == |s|
  {
    if |s| == 0 then []
    else
      var n := |s| - 1;
      InsertByKey(s[n], SortByKey(s[..n]))
  }

  lemma {:induction false} InsertByKeyPermutes<T>(x: (nat, T), sorted: seq<(nat, T)>)
    ensures multiset(InsertByKey(x, sorted)) == multiset(sorted) + multiset{x}
    decreases |sorted|
  {
    if |sorted| > 0 && sorted[|sorted| - 1].0 > x.0 {
      var n := |sorted| - 1;
      InsertByKeyPermutes(x, sorted[..n]);
      assert sorted == sorted[..n] + [sorted[n]];
    }
  }

  /** The sort is a permutation of its input. */
  lemma {:induction false} SortByKeyPermutes<T>(s: seq<(nat, T)>)
    ensures multiset(SortByKey(s)) == multiset(s)
    decreases |s|
  {
    if |s| > 0 {
      var n := |s| - 1;
      var init := s[..n];
      var sortedInit := SortByKey(init);
      SortByKeyPermutes(init);
      SortByKeyStep(s);
      InsertByKeyPermutes(s[n], sortedInit);
      assert s == init + [s[n]];
      assert multiset(s) == multiset(init) + multiset{s[n]};
    }
  }

  lemma SortByKeyStep<T>(s: seq<(nat, T)>)
    requires |s| > 0
    ensures SortByKey(s) == InsertByKey(s[|s| - 1], SortByKey(s[..|s| - 1]))
  {
  }

  lemma UntagSnoc<T>(a: seq<(nat, T)>, b: (nat, T))
    ensures Untag(a + [b]) == Untag(a) + [b.1]
  {
  }

  lemma {:induction false} InsertByKeyUntag<T>(x: (nat, T), sorted: seq<(nat, T)>)
    ensures multiset(Untag(InsertByKey(x, sorted))) == multiset(Untag(sorted)) + multiset{x.1}
    decreases |sorted|
  {
    if |sorted| == 0 {
      assert Untag([x]) == [x.1];
    } else if sorted[|sorted| - 1].0 <= x.0 {
      UntagSnoc(sorted, x);
    } else {
      var n := |sorted| - 1;
      InsertByKeyUntag(x, sorted[..n]);
      UntagSnoc(InsertByKey(x, sorted[..n]), sorted[n]);
      UntagSnoc(sorted[..n], sorted[n]);
      assert sorted == sorted[..n] + [sorted[n]];
    }
  }

  /** Sorting tagged values rearranges the values themselves. */
  lemma {:induction false} SortByKeyUntag<T>(s: seq<(nat, T)>)
    ensures multiset(Untag(SortByKey(s))) == multiset(Untag(s))
    decreases |s|
  {
    if |s| > 0 {
      var n := |s| - 1;
      var init := s[..n];
      var sortedInit := SortByKey(init);
      SortByKeyUntag(init);
      SortByKeyStep(s);
      InsertByKeyUntag(s[n], sortedInit);
      assert s == init + [s[n]];
      UntagSnoc(init, s[n]);
    }
  }

  /** Each action tagged with the sort key `partial_cmp` computes for it. */
  function Tag(actions: seq<FileInfoParserAction>, platform: Platform): seq<(nat, FileInfoParserAction)>
    requires AllComparable(actions)
  {
    seq(|actions|, i requires 0 <= i < |actions| => (Depth(actions[i], platform), actions[i]))
  }

  lemma UntagTag(actions: seq<FileInfoParserAction>, platform: Platform)
    requires AllComparable(actions)
    ensures Untag(Tag(actions, platform)) == actions
  {
  }

  /** The sort calls `partial_cmp`, which unwraps, only when there are two elements to compare. */
  predicate SortReady(actions: seq<FileInfoParserAction>) {
    |actions| >= 2 ==> AllComparable(actions)
  }

  /** `sorted_by(partial_cmp)`: a stable sort by depth, which rearranges the actions. */
  function SortByDepth(actions: seq<FileInfoParserAction>, platform: Platform): (r: seq<FileInfoParserAction>)
    requires SortReady(actions)
    ensures multiset(r) == multiset(actions)
  {
    if |actions| <= 1 then actions
    else
      SortByKeyUntag(Tag(actions, platform));
      UntagTag(actions, platform);
      Untag(SortByKey(Tag(actions, platform)))
  }

  /** The actions of every kind but `t`, in order. */
  function Without(actions: seq<FileInfoParserAction>, t: ActionType): seq<FileInfoParserAction> {
    if |actions| == 0 then []
    else
      var last := actions[|actions| - 1];
      Without(actions[..|actions| - 1], t) + (if last.actionType != t then [last] else [])
  }

  /** `ordered_creates`: the Create and Update actions of the list, sorted. */
  function OrderedCreates(actions: seq<FileInfoParserAction>, platform: Platform): (r: seq<FileInfoParserAction>)
    requires SortReady(actions)
    ensures forall a :: a in r <==> a in actions && a.actionType != Delete
  {
    var sorted := SortByDepth(actions, platform);
    WithoutMembers(sorted, Delete);
    assert forall a :: a in sorted <==> a in multiset(sorted);
    Without(sorted, Delete)
  }

  /** `ordered_deletes`: the Delete actions of the list, sorted, then reversed. */
  function OrderedDeletes(actions: seq<FileInfoParserAction>, platform: Platform): (r: seq<FileInfoParserAction>)
    requires SortReady(actions)
    ensures forall a :: a in r <==> a in actions && a.actionType == Delete
  {
    var sorted := SortByDepth(actions, platform);
    OfKindMembers(sorted, Delete);
    assert forall a :: a in sorted <==> a in multiset(sorted);
    var kind := OfKind(sorted, Delete);
    assert forall a :: a in Reverse(kind) <==> a in kind by {
      forall a | a in kind
        ensures a in Reverse(kind)
      {
        var i :| 0 <= i < |kind| && kind[i] == a;
        assert Reverse(kind)[|kind| - 1 - i] == a;
      }
    }
    Reverse(kind)
  }

  // ---------------------------------------------------------------------
  // Properties of the sort and the queues
  // ---------------------------------------------------------------------

  predicate KeySorted<T>(s: seq<(nat, T)>) {
    forall i, j :: 0 <= i < j < |s| ==> s[i].0 <= s[j].0
  }

  lemma {:induction false} InsertByKeySorted<T>(x: (nat, T), sorted: seq<(nat, T)>)
    requires KeySorted(sorted)
    ensures KeySorted(InsertByKey(x, sorted))
    ensures forall e :: e in InsertByKey(x, sorted) ==> e == x || e in sorted
    decreases |sorted|
  {
    if |sorted| > 0 && sorted[|sorted| - 1].0 > x.0 {
      var n := |sorted| - 1;
      InsertByKeySorted(x, sorted[..n]);
      var r := InsertByKey(x, sorted[..n]);
      forall e | e in r
        ensures e.0 <= sorted[n].0
      {
        if e != x {
          var i :| 0 <= i < n && sorted[i] == e;
        }
      }
      forall i | 0 <= i < |r|
        ensures r[i].0 <= sorted[n].0
      {
        assert r[i] in r;
      }
    }
  }

  /** The sort orders by key. */
  lemma {:induction false} SortByKeySorted<T>(s: seq<(nat, T)>)
    ensures KeySorted(SortByKey(s))
    decreases |s|
  {
    if |s| > 0 {
      SortByKeySorted(s[..|s| - 1]);
      InsertByKeySorted(s[|s| - 1], SortByKey(s[..|s| - 1]));
    }
  }

  /** The sort is stable: when every key is the same, it changes nothing. */
  lemma {:induction false} SortByKeyFlat<T>(s: seq<(nat, T)>, d: nat)
    requires forall i :: 0 <= i < |s| ==> s[i].0 == d
    ensures SortByKey(s) == s
    decreases |s|
  {
    if |s| > 0 {
      SortByKeyFlat(s[..|s| - 1], d);
      assert s == s[..|s| - 1] + [s[|s| - 1]];
    }
  }

  /** `sorted_by(partial_cmp)` orders the actions by depth. */
  lemma SortByDepthSorted(actions: seq<FileInfoParserAction>, platform: Platform)
    requires AllComparable(actions)
    ensures var r := SortByDepth(actions, platform);
      forall i, j :: 0 <= i < j < |r| ==> Comparable(r[i]) && Comparable(r[j]) && Depth(r[i], platform) <= Depth(r[j], platform)
  {
    if |actions| >= 2 {
      var tagged := Tag(actions, platform);
      var sorted := SortByKey(tagged);
      SortByKeySorted(tagged);
      SortByKeyPermutes(tagged);
      forall k | 0 <= k < |sorted|
        ensures Comparable(sorted[k].1) && sorted[k].0 == Depth(sorted[k].1, platform)
      {
        assert sorted[k] in multiset(tagged);
        TagMember(actions, platform, sorted[k]);
      }
    }
  }

  /** Every tag is the depth of the action it carries. */
  lemma TagMember(actions: seq<FileInfoParserAction>, platform: Platform, e: (nat, FileInfoParserAction))
    requires AllComparable(actions)
    requires e in Tag(actions, platform)
    ensures Comparable(e.1) && e.0 == Depth(e.1, platform)
  {
    var m :| 0 <= m < |actions| && Tag(actions, platform)[m] == e;
  }

  /** Every action has the same depth `d`. */
  predicate FlatDepth(actions: seq<FileInfoParserAction>, d: nat, platform: Platform) {
    forall i :: 0 <= i < |actions| ==> Comparable(actions[i]) && Depth(actions[i], platform) == d
  }

  /** When every depth is the same, the sort changes nothing. */
  lemma SortFlatIsIdentity(actions: seq<FileInfoParserAction>, d: nat, platform: Platform)
    requires FlatDepth(actions, d, platform)
    ensures SortByDepth(actions, platform) == actions
  {
    if |actions| >= 2 {
      SortByKeyFlat(Tag(actions, platform), d);
    }
  }

  /** Parser-built actions all have depth 1, so their queues keep the list's order. */
  lemma QueuesOfParserActions(actions: seq<FileInfoParserAction>, platform: Platform)
    requires forall i :: 0 <= i < |actions| ==> NamesOnly(actions[i])
    ensures SortReady(actions)
    ensures OrderedCreates(actions, platform) == Without(actions, Delete)
    ensures OrderedDeletes(actions, platform) == Reverse(OfKind(actions, Delete))
  {
    forall i | 0 <= i < |actions|
      ensures Comparable(actions[i]) && Depth(actions[i], platform) == 1
    {
      DepthIsOne(actions[i], platform);
    }
    SortFlatIsIdentity(actions, 1, platform);
  }

  lemma {:induction false} WithoutConcat(xs: seq<FileInfoParserAction>, ys: seq<FileInfoParserAction>, t: ActionType)
    ensures Without(xs + ys, t) == Without(xs, t) + Without(ys, t)
    decreases |ys|
  {
    if |ys| == 0 {
      AppendEmpty(xs);
      AppendEmpty(Without(xs, t));
    } else {
      var n := |ys| - 1;
      WithoutConcat(xs, ys[..n], t);
      SnocInit(xs, ys);
      var e := if ys[n].actionType != t then [ys[n]] else [];
      AppendAssoc(Without(xs, t), Without(ys[..n], t), e);
    }
  }

  lemma {:induction false} WithoutNone(xs: seq<FileInfoParserAction>, t: ActionType)
    requires forall i :: 0 <= i < |xs| ==> xs[i].actionType != t
    ensures Without(xs, t) == xs
    decreases |xs|
  {
    if |xs| > 0 {
      WithoutNone(xs[..|xs| - 1], t);
    }
  }

  lemma {:induction false} WithoutAll(xs: seq<FileInfoParserAction>, t: ActionType)
    requires forall i :: 0 <= i < |xs| ==> xs[i].actionType == t
    ensures Without(xs, t) == []
    decreases |xs|
  {
    if |xs| > 0 {
      WithoutAll(xs[..|xs| - 1], t);
    }
  }

  /** `Without` keeps exactly the actions of other kinds. */
  lemma {:induction false} WithoutMembers(xs: seq<FileInfoParserAction>, t: ActionType)
    ensures forall a :: a in Without(xs, t) <==> a in xs && a.actionType != t
    decreases |xs|
  {
    if |xs| > 0 {
      var n := |xs| - 1;
      WithoutMembers(xs[..n], t);
      assert xs == xs[..n] + [xs[n]];
    }
  }

  /** `OfKind` keeps exactly the actions of kind `t`. */
  lemma {:induction false} OfKindMembers(xs: seq<FileInfoParserAction>, t: ActionType)
    ensures forall a :: a in OfKind(xs, t) <==> a in xs && a.actionType == t
    decreases |xs|
  {
    if |xs| > 0 {
      var n := |xs| - 1;
      OfKindMembers(xs[..n], t);
      assert xs == xs[..n] + [xs[n]];
    }
  }

  // ---------------------------------------------------------------------
  // The effects
  // ---------------------------------------------------------------------

  /** The path an effect writes, creates or removes. */
  function Written(e: Effect): string {
    match e
    case Copy(_, to) => to
    case CreateDir(path) => path
    case RemoveFile(path) => path
    case RemoveDir(path) => path
  }

  /** What the create loop unwraps for an action of each kind. */
  predicate CreateReady(c: FileInfoParserAction) {
    match c.actionType
    case Create => HasSourceSegment(c)
    case Update => c.source.Some? && c.destination.Some?
    case Delete => true
  }

  /** What the delete loop unwraps: the destination of a Delete, when deletes run. */
  predicate DeleteReady(d: FileInfoParserAction, enableDeletes: bool) {
    d.actionType == Delete && enableDeletes ==> d.destination.Some?
  }

  /**
    The effect of one action of the create queue: a file is copied and a
    directory created, at the computed destination for a Create and at the
    destination record's own path for an Update.
   */
  function CreateEffect(c: FileInfoParserAction, targetDirectory: string, platform: Platform): (r: seq<Effect>)
    requires CreateReady(c)
    ensures |r| == if c.actionType == Delete then 0 else 1
    ensures forall e :: e in r ==> !IsRemoval(e)
  {
    match c.actionType
    case Create =>
      var dst := DestinationFromSegment(c, targetDirectory, platform);
      if c.source.value.isFile then [Copy(c.source.value.path, dst)] else [CreateDir(dst)]
    case Update =>
      var dst := c.destination.value.path;
      if c.source.value.isFile then [Copy(c.source.value.path, dst)] else [CreateDir(dst)]
    case Delete => []
  }

  /** The removal of one Delete action: `remove_file` for a file, `remove_dir` otherwise. */
  function Removal(d: FileInfoParserAction): (e: Effect)
    requires d.destination.Some?
    ensures IsRemoval(e) && Written(e) == d.destination.value.path
    ensures e.RemoveFile? <==> d.destination.value.isFile
  {
    if d.destination.value.isFile then RemoveFile(d.destination.value.path) else RemoveDir(d.destination.value.path)
  }

  /**
    What a queued Create or Update does: a file is copied from the source
    record's path, anything else becomes a directory; a Create writes at
    the destination computed from the source segment, an Update at the
    destination record's path.
   */
  lemma CreateEffectPlaces(c: FileInfoParserAction, targetDirectory: string, platform: Platform)
    requires CreateReady(c) && c.actionType != Delete
    ensures var e := CreateEffect(c, targetDirectory, platform)[0];
      && (e.Copy? <==> c.source.value.isFile)
      && (e.Copy? ==> e.from == c.source.value.path)
      && (!e.Copy? ==> e.CreateDir?)
      && (c.actionType == Create ==> Written(e) == DestinationFromSegment(c, targetDirectory, platform))
      && (c.actionType == Update ==> Written(e) == c.destination.value.path)
  {
  }

  /** The effects of the create loop. */
  function CreateRun(queue: seq<FileInfoParserAction>, targetDirectory: string, platform: Platform): seq<Effect>
    requires forall a :: a in queue ==> CreateReady(a)
  {
    if |queue| == 0 then []
    else
      var last := queue[|queue| - 1];
      assert last in queue;
      CreateRun(queue[..|queue| - 1], targetDirectory, platform) + CreateEffect(last, targetDirectory, platform)
  }

  /** The effects of the delete loop and the operations it counts; a suppressed Delete ends it. */
  function DeleteRun(queue: seq<FileInfoParserAction>, enableDeletes: bool): (seq<Effect>, nat)
    requires forall a :: a in queue ==> DeleteReady(a, enableDeletes)
  {
    if |queue| == 0 then ([], 0)
    else
      var d := queue[0];
      assert d in queue && forall a :: a in queue[1..] ==> a in queue;
      assert DeleteReady(d, enableDeletes);
      var rest := DeleteRun(queue[1..], enableDeletes);
      match d.actionType
      case Delete =>
        if enableDeletes then ([Removal(d)] + rest.0, rest.1 + 1) else ([], 0)
      case _ => (rest.0, rest.1 + 1)
  }

  /** Everything `incremental_copy` unwraps for one action list. */
  predicate CopyReady(list: FileInfoParserActionList, enableDeletes: bool) {
    && SortReady(list.actions)
    && forall a :: a in list.actions ==> CreateReady(a) && DeleteReady(a, enableDeletes)
  }

  /** The effects and the final counter of the two loops over given queues. */
  function QueuesRun(creates: seq<FileInfoParserAction>, deletes: seq<FileInfoParserAction>,
                     targetDirectory: string, enableDeletes: bool, platform: Platform): (seq<Effect>, nat)
    requires forall a :: a in creates ==> CreateReady(a)
    requires forall a :: a in deletes ==> DeleteReady(a, enableDeletes)
  {
    var removed := DeleteRun(deletes, enableDeletes);
    (CreateRun(creates, targetDirectory, platform) + removed.0, |creates| + removed.1)
  }

  /** The effects and the final counter of one action list. */
  function ListRun(list: FileInfoParserActionList, enableDeletes: bool, platform: Platform): (seq<Effect>, nat)
    requires CopyReady(list, enableDeletes)
  {
    var creates := OrderedCreates(list.actions, platform);
    var deletes := OrderedDeletes(list.actions, platform);
    QueuesRun(creates, deletes, list.targetDirectory, enableDeletes, platform)
  }

  predicate AllCopyReady(lists: seq<FileInfoParserActionList>, enableDeletes: bool) {
    forall i :: 0 <= i < |lists| ==> CopyReady(lists[i], enableDeletes)
  }

  /** The effects of all lists, one list after another. */
  function Trace(lists: seq<FileInfoParserActionList>, enableDeletes: bool, platform: Platform): seq<Effect>
    requires AllCopyReady(lists, enableDeletes)
  {
    if |lists| == 0 then []
    else Trace(lists[..|lists| - 1], enableDeletes, platform) + ListRun(lists[|lists| - 1], enableDeletes, platform).0
  }

  /** The final counter of each list. */
  function Counters(lists: seq<FileInfoParserActionList>, enableDeletes: bool, platform: Platform): seq<nat>
    requires AllCopyReady(lists, enableDeletes)
  {
    if |lists| == 0 then []
    else Counters(lists[..|lists| - 1], enableDeletes, platform) + [ListRun(lists[|lists| - 1], enableDeletes, platform).1]
  }

  // ---------------------------------------------------------------------
  // Properties of the effects
  // ---------------------------------------------------------------------

  /** The create loop performs one copy or directory creation per queued create or update, and no removal. */
  lemma {:induction false} CreateRunShape(queue: seq<FileInfoParserAction>, targetDirectory: string, platform: Platform)
    requires forall a :: a in queue ==> CreateReady(a) && a.actionType != Delete
    ensures |CreateRun(queue, targetDirectory, platform)| == |queue|
    ensures forall e :: e in CreateRun(queue, targetDirectory, platform) ==> !IsRemoval(e)
    decreases |queue|
  {
    if |queue| > 0 {
      var n := |queue| - 1;
      assert forall a :: a in queue[..n] ==> a in queue;
      assert queue[n] in queue;
      CreateRunShape(queue[..n], targetDirectory, platform);
    }
  }

  /** Effect i of the create loop is the effect of queued action i. */
  lemma {:induction false} CreateRunAt(queue: seq<FileInfoParserAction>, targetDirectory: string, platform: Platform, i: nat)
    requires forall a :: a in queue ==> CreateReady(a) && a.actionType != Delete
    requires i < |queue|
    ensures queue[i] in queue && i < |CreateRun(queue, targetDirectory, platform)|
    ensures CreateRun(queue, targetDirectory, platform)[i] == CreateEffect(queue[i], targetDirectory, platform)[0]
    decreases |queue|
  {
    var n := |queue| - 1;
    var init := queue[..n];
    assert forall a :: a in init ==> a in queue;
    assert queue[n] in queue;
    CreateRunShape(init, targetDirectory, platform);
    var prev := CreateRun(init, targetDirectory, platform);
    var extra := CreateEffect(queue[n], targetDirectory, platform);
    assert CreateRun(queue, targetDirectory, platform) == prev + extra;
    if i < n {
      CreateRunAt(init, targetDirectory, platform, i);
      assert init[i] == queue[i];
      assert (prev + extra)[i] == prev[i];
    } else {
      assert (prev + extra)[i] == extra[0];
    }
  }

  /**
    A Create lands under the target root: the path it writes parses to the
    target's names followed by the source record's relative names.
   */
  lemma CreateLandsUnderTarget(c: FileInfoParserAction, targetDirectory: string, platform: Platform)
    requires c.actionType == Create && CreateReady(c)
    requires |c.source.value.segment.value| >= 1 && AllNames(c.source.value.segment.value)
    ensures NormalizedSplitter(Written(CreateEffect(c, targetDirectory, platform)[0]))
      == NormalizedSplitter(targetDirectory) + c.source.value.segment.value
  {
    DestinationUnderTarget(c, targetDirectory, platform);
  }

  /**
    The first effects of a list are those of its create queue, one per queued
    action in queue order.
   */
  lemma CreatesPerformed(list: FileInfoParserActionList, enableDeletes: bool, platform: Platform)
    requires CopyReady(list, enableDeletes)
    ensures var creates := OrderedCreates(list.actions, platform);
      var effects := ListRun(list, enableDeletes, platform).0;
      && |creates| <= |effects|
      && forall i :: 0 <= i < |creates| ==>
           CreateReady(creates[i]) && creates[i].actionType != Delete
           && effects[i] == CreateEffect(creates[i], list.targetDirectory, platform)[0]
  {
    var creates := OrderedCreates(list.actions, platform);
    var deletes := OrderedDeletes(list.actions, platform);
    ListRunQueues(list, enableDeletes, platform);
    QueuesRunSplit(creates, deletes, list.targetDirectory, enableDeletes, platform);
    CreateRunShape(creates, list.targetDirectory, platform);
    var created := CreateRun(creates, list.targetDirectory, platform);
    var removed := DeleteRun(deletes, enableDeletes).0;
    forall i | 0 <= i < |creates|
      ensures (created + removed)[i] == CreateEffect(creates[i], list.targetDirectory, platform)[0]
    {
      CreateRunAt(creates, list.targetDirectory, platform, i);
    }
  }

  /** With deletes enabled, each queued Delete is removed in queue order and counted. */
  lemma {:induction false} DeleteRunEnabled(queue: seq<FileInfoParserAction>)
    requires forall a :: a in queue ==> a.actionType == Delete && a.destination.Some?
    ensures DeleteRun(queue, true).1 == |queue|
    ensures |DeleteRun(queue, true).0| == |queue|
    ensures forall i :: 0 <= i < |queue| ==> DeleteRun(queue, true).0[i] == Removal(queue[i])
    decreases |queue|
  {
    if |queue| > 0 {
      var rest := queue[1..];
      assert forall a :: a in rest ==> a in queue;
      assert queue[0] in queue;
      DeleteRunEnabled(rest);
      var tail := DeleteRun(rest, true);
      assert DeleteRun(queue, true) == ([Removal(queue[0])] + tail.0, tail.1 + 1);
      forall i | 0 <= i < |queue|
        ensures ([Removal(queue[0])] + tail.0)[i] == Removal(queue[i])
      {
        if i > 0 {
          assert rest[i - 1] == queue[i];
        }
      }
    }
  }

  /** The delete loop performs only removals. */
  lemma {:induction false} DeleteRunRemoves(queue: seq<FileInfoParserAction>, enableDeletes: bool)
    requires forall a :: a in queue ==> DeleteReady(a, enableDeletes)
    ensures forall e :: e in DeleteRun(queue, enableDeletes).0 ==> IsRemoval(e)
    decreases |queue|
  {
    if |queue| > 0 {
      assert forall a :: a in queue[1..] ==> a in queue;
      DeleteRunRemoves(queue[1..], enableDeletes);
    }
  }

  /** With deletes disabled, a queue of Deletes stops at its first element. */
  lemma DeleteRunSuppressed(queue: seq<FileInfoParserAction>)
    requires forall a :: a in queue ==> a.actionType == Delete
    ensures DeleteRun(queue, false) == ([], 0)
  {
    if |queue| > 0 {
      assert queue[0] in queue;
    }
  }

  /** The create loop runs to completion before the delete loop removes anything. */
  lemma QueuesCreatesBeforeRemovals(creates: seq<FileInfoParserAction>, deletes: seq<FileInfoParserAction>,
                                    targetDirectory: string, enableDeletes: bool, platform: Platform)
    requires forall a :: a in creates ==> CreateReady(a) && a.actionType != Delete
    requires forall a :: a in deletes ==> DeleteReady(a, enableDeletes)
    ensures var effects := QueuesRun(creates, deletes, targetDirectory, enableDeletes, platform).0;
      forall i, j :: 0 <= i < j < |effects| && IsRemoval(effects[i]) ==> IsRemoval(effects[j])
  {
    CreateRunShape(creates, targetDirectory, platform);
    DeleteRunRemoves(deletes, enableDeletes);
    RemovalsLast(CreateRun(creates, targetDirectory, platform), DeleteRun(deletes, enableDeletes).0);
  }

  /** Effects without removals followed by removals only: no removal precedes a non-removal. */
  lemma RemovalsLast(c: seq<Effect>, d: seq<Effect>)
    requires forall e :: e in c ==> !IsRemoval(e)
    requires forall e :: e in d ==> IsRemoval(e)
    ensures forall i, j :: 0 <= i < j < |c + d| && IsRemoval((c + d)[i]) ==> IsRemoval((c + d)[j])
  {
    var effects := c + d;
    forall i, j | 0 <= i < j < |effects| && IsRemoval(effects[i])
      ensures IsRemoval(effects[j])
    {
      if j >= |c| {
        assert effects[j] == d[j - |c|];
        assert effects[j] in d;
      }
    }
  }

  /**
    Within a list every copy and directory creation comes before every
    removal.
   */
  lemma CreatesBeforeRemovals(list: FileInfoParserActionList, enableDeletes: bool, platform: Platform)
    requires CopyReady(list, enableDeletes)
    ensures var effects := ListRun(list, enableDeletes, platform).0;
      forall i, j :: 0 <= i < j < |effects| && IsRemoval(effects[i]) ==> IsRemoval(effects[j])
  {
    var creates := OrderedCreates(list.actions, platform);
    var deletes := OrderedDeletes(list.actions, platform);
    QueuesCreatesBeforeRemovals(creates, deletes, list.targetDirectory, enableDeletes, platform);
  }

  /**
    With deletes disabled, nothing is removed and the counter stops at the
    number of creates and updates: the first Delete breaks the loop.
   */
  lemma DeletesSuppressed(list: FileInfoParserActionList, platform: Platform)
    requires CopyReady(list, false)
    ensures var (effects, counter) := ListRun(list, false, platform);
      && (forall e :: e in effects ==> !IsRemoval(e))
      && counter == |OrderedCreates(list.actions, platform)|
      && effects == CreateRun(OrderedCreates(list.actions, platform), list.targetDirectory, platform)
  {
    var creates := OrderedCreates(list.actions, platform);
    CreateRunShape(creates, list.targetDirectory, platform);
    DeleteRunSuppressed(OrderedDeletes(list.actions, platform));
    assert CreateRun(creates, list.targetDirectory, platform) + [] == CreateRun(creates, list.targetDirectory, platform);
  }

  /**
    The run counted every action of both queues, and after the effects of
    the create queue come the removals of the delete queue, in its order.
   */
  predicate DeletesAllPerformed(run: (seq<Effect>, nat), creates: seq<FileInfoParserAction>, deletes: seq<FileInfoParserAction>) {
    && run.1 == |creates| + |deletes|
    && |run.0| == |creates| + |deletes|
    && forall i :: 0 <= i < |deletes| ==>
         deletes[i].destination.Some? && run.0[|creates| + i] == Removal(deletes[i])
  }

  /** With deletes enabled, every queued Delete is removed, in queue order, and counted. */
  lemma QueuesDeletesPerformed(creates: seq<FileInfoParserAction>, deletes: seq<FileInfoParserAction>,
                               targetDirectory: string, platform: Platform)
    requires forall a :: a in creates ==> CreateReady(a) && a.actionType != Delete
    requires forall a :: a in deletes ==> a.actionType == Delete && a.destination.Some?
    ensures DeletesAllPerformed(QueuesRun(creates, deletes, targetDirectory, true, platform), creates, deletes)
  {
    CreateRunShape(creates, targetDirectory, platform);
    DeleteRunEnabled(deletes);
    var created := CreateRun(creates, targetDirectory, platform);
    var removed := DeleteRun(deletes, true);
    assert forall i :: 0 <= i < |deletes| ==> deletes[i] in deletes;
    RemovalsAfter(created, removed.0, deletes);
  }

  /** Effects followed by the removals of `deletes`: the removal of `deletes[i]` sits `i` places after the effects. */
  lemma RemovalsAfter(created: seq<Effect>, removed: seq<Effect>, deletes: seq<FileInfoParserAction>)
    requires |removed| == |deletes|
    requires forall i :: 0 <= i < |deletes| ==> deletes[i].destination.Some? && removed[i] == Removal(deletes[i])
    ensures forall i :: 0 <= i < |deletes| ==> (created + removed)[|created| + i] == Removal(deletes[i])
  {
  }

  /** A list runs its two queues, and the queues hold what the loops unwrap. */
  lemma ListRunQueues(list: FileInfoParserActionList, enableDeletes: bool, platform: Platform)
    requires CopyReady(list, enableDeletes)
    ensures forall a :: a in OrderedCreates(list.actions, platform) ==> CreateReady(a) && a.actionType != Delete
    ensures forall a :: a in OrderedDeletes(list.actions, platform) ==> DeleteReady(a, enableDeletes) && a.actionType == Delete
    ensures ListRun(list, enableDeletes, platform)
      == QueuesRun(OrderedCreates(list.actions, platform), OrderedDeletes(list.actions, platform),
                   list.targetDirectory, enableDeletes, platform)
  {
  }

  /**
    With deletes enabled, the counter reaches the total of both queues and
    the delete loop removes each queued destination in queue order.
   */
  lemma DeletesPerformed(list: FileInfoParserActionList, platform: Platform)
    requires CopyReady(list, true)
    ensures DeletesAllPerformed(ListRun(list, true, platform), OrderedCreates(list.actions, platform), OrderedDeletes(list.actions, platform))
  {
    ListRunQueues(list, true, platform);
    QueuesDeletesPerformed(OrderedCreates(list.actions, platform), OrderedDeletes(list.actions, platform), list.targetDirectory, platform);
  }

  // ---------------------------------------------------------------------
  // Lists produced by the merge
  // ---------------------------------------------------------------------

  /** Every record has a segment of parser-built names. */
  predicate AllNamed(rs: seq<FileInfoParser>) {
    forall i :: 0 <= i < |rs| ==> HasKey(rs[i]) && AllNames(rs[i].segment.value)
  }

  lemma WalkableRecordsNamed(root: string, fs: Snapshot, listing: Listing)
    requires Walkable(root, fs, listing)
    ensures AllNamed(Records(root, listing[root], fs))
  {
    var paths := listing[root];
    WalkableRecords(root, fs, listing);
    forall i | 0 <= i < |paths|
      ensures AllNames(Records(root, paths, fs)[i].segment.value)
    {
      RecordSegmentIsNames(paths[i], root, fs[paths[i]]);
    }
  }

  /** Every action built from named records orders by a named record. */
  lemma ActionsNamesOnly(rs1: seq<FileInfoParser>, rs2: seq<FileInfoParser>, targetDir: string, fs: Snapshot, platform: Platform)
    requires AllNamed(rs1) && AllNamed(rs2) && AllKeyed(rs1) && AllKeyed(rs2)
    requires CacheInFs(KeyMap(rs2, platform), fs)
    ensures var actions := Actions(rs1, rs2, targetDir, fs, platform);
      forall i :: 0 <= i < |actions| ==> NamesOnly(actions[i]) && CreateReady(actions[i]) && DeleteReady(actions[i], true)
  {
    var firstOnly := Unmatched(rs1, KeyMap(rs2, platform), platform);
    var secondOnly := Unmatched(rs2, KeyMap(rs1, platform), platform);
    var pairs := InBoth(rs1, Rebuilt(KeyMap(rs2, platform), targetDir, fs), platform);
    UnmatchedMembers(rs1, KeyMap(rs2, platform), platform);
    UnmatchedMembers(rs2, KeyMap(rs1, platform), platform);
    BothSound(rs1, Rebuilt(KeyMap(rs2, platform), targetDir, fs), platform);
    AllNamedMembers(rs1);
    AllNamedMembers(rs2);
    KindsNamesOnly(firstOnly, secondOnly, pairs);
    assert CreateActions(firstOnly) + DeleteActions(secondOnly) + UpdateActions(pairs) == Actions(rs1, rs2, targetDir, fs, platform);
  }

  lemma AllNamedMembers(rs: seq<FileInfoParser>)
    requires AllNamed(rs)
    ensures forall r :: r in rs ==> HasKey(r) && AllNames(r.segment.value)
  {
    forall r | r in rs
      ensures HasKey(r) && AllNames(r.segment.value)
    {
      var i :| 0 <= i < |rs| && rs[i] == r;
    }
  }

  /** The creates of `xs`, deletes of `ys` and updates of `pairs` order by named records, when those records are named. */
  lemma KindsNamesOnly(xs: seq<FileInfoParser>, ys: seq<FileInfoParser>, pairs: seq<(FileInfoParser, FileInfoParser)>)
    requires forall r :: r in xs ==> HasKey(r) && AllNames(r.segment.value)
    requires forall r :: r in ys ==> HasKey(r) && AllNames(r.segment.value)
    requires forall p :: p in pairs ==> HasKey(p.0) && AllNames(p.0.segment.value)
    ensures var actions := CreateActions(xs) + DeleteActions(ys) + UpdateActions(pairs);
      forall i :: 0 <= i < |actions| ==> NamesOnly(actions[i]) && CreateReady(actions[i]) && DeleteReady(actions[i], true)
  {
    var creates := CreateActions(xs);
    var deletes := DeleteActions(ys);
    var updates := UpdateActions(pairs);
    var actions := creates + deletes + updates;
    UpdateActionsShape(pairs);
    forall i | 0 <= i < |actions|
      ensures NamesOnly(actions[i]) && CreateReady(actions[i]) && DeleteReady(actions[i], true)
    {
      if i < |creates| {
        assert xs[i] in xs;
      } else if i < |creates| + |deletes| {
        assert ys[i - |creates|] in ys;
      } else {
        assert actions[i] in updates;
      }
    }
  }

  /**
    The queues of merged actions follow the merge: the create/update queue
    is the creates followed by the updates, and the delete queue is the
    deletes in reverse order.
   */
  lemma ActionsQueues(rs1: seq<FileInfoParser>, rs2: seq<FileInfoParser>, targetDir: string, fs: Snapshot, platform: Platform)
    requires AllNamed(rs1) && AllNamed(rs2) && AllKeyed(rs1) && AllKeyed(rs2)
    requires CacheInFs(KeyMap(rs2, platform), fs)
    ensures var actions := Actions(rs1, rs2, targetDir, fs, platform);
      && SortReady(actions)
      && (forall a :: a in actions ==> CreateReady(a) && DeleteReady(a, true))
      && OrderedCreates(actions, platform)
           == CreateActions(Unmatched(rs1, KeyMap(rs2, platform), platform))
              + UpdateActions(InBoth(rs1, Rebuilt(KeyMap(rs2, platform), targetDir, fs), platform))
      && OrderedDeletes(actions, platform)
           == Reverse(DeleteActions(Unmatched(rs2, KeyMap(rs1, platform), platform)))
  {
    var actions := Actions(rs1, rs2, targetDir, fs, platform);
    ActionsNamesOnly(rs1, rs2, targetDir, fs, platform);
    var c := CreateActions(Unmatched(rs1, KeyMap(rs2, platform), platform));
    var d := DeleteActions(Unmatched(rs2, KeyMap(rs1, platform), platform));
    var u := UpdateActions(InBoth(rs1, Rebuilt(KeyMap(rs2, platform), targetDir, fs), platform));
    assert actions == c + d + u;
    UpdateActionsShape(InBoth(rs1, Rebuilt(KeyMap(rs2, platform), targetDir, fs), platform));
    QueuesOfKinds(c, d, u, platform);
    assert forall a :: a in actions ==> exists i :: 0 <= i < |actions| && actions[i] == a;
  }

  /** The queues of creates, then deletes, then updates, when every action orders by names. */
  lemma QueuesOfKinds(c: seq<FileInfoParserAction>, d: seq<FileInfoParserAction>, u: seq<FileInfoParserAction>, platform: Platform)
    requires forall i :: 0 <= i < |c + d + u| ==> NamesOnly((c + d + u)[i])
    requires forall i :: 0 <= i < |c| ==> c[i].actionType == Create
    requires forall i :: 0 <= i < |d| ==> d[i].actionType == Delete
    requires forall a :: a in u ==> a.actionType == Update
    ensures SortReady(c + d + u)
    ensures OrderedCreates(c + d + u, platform) == c + u
    ensures OrderedDeletes(c + d + u, platform) == Reverse(d)
  {
    QueuesOfParserActions(c + d + u, platform);
    FiltersOfKinds(c, d, u);
  }

  /** Filtering creates, then deletes, then updates by Delete separates the deletes from the rest. */
  lemma FiltersOfKinds(c: seq<FileInfoParserAction>, d: seq<FileInfoParserAction>, u: seq<FileInfoParserAction>)
    requires forall i :: 0 <= i < |c| ==> c[i].actionType == Create
    requires forall i :: 0 <= i < |d| ==> d[i].actionType == Delete
    requires forall a :: a in u ==> a.actionType == Update
    ensures Without(c + d + u, Delete) == c + u
    ensures OfKind(c + d + u, Delete) == d
  {
    assert forall i :: 0 <= i < |u| ==> u[i] in u;
    var cd := c + d;
    WithoutNone(c, Delete);
    WithoutAll(d, Delete);
    WithoutNone(u, Delete);
    WithoutConcat(c, d, Delete);
    assert Without(cd, Delete) == c + [];
    WithoutConcat(cd, u, Delete);
    OfKindNone(c, Delete);
    OfKindAll(d, Delete);
    OfKindNone(u, Delete);
    OfKindConcat(c, d, Delete);
    assert OfKind(cd, Delete) == [] + d;
    OfKindConcat(cd, u, Delete);
    assert c + [] == c && [] + d == d && d + [] == d;
  }

  /**
    For a list the merge produced, nothing panics, with deletes enabled or
    not, and the queues follow the merge as `ActionsQueues` states.
   */
  lemma MergedListQueues(sourceDir: string, targetDir: string, fs: Snapshot, listing: Listing, platform: Platform)
    requires Walkable(sourceDir, fs, listing) && Walkable(targetDir, fs, listing)
    ensures var list := FileInfoParserActionList(sourceDir, targetDir, TargetActions(sourceDir, targetDir, fs, listing, platform));
      && CopyReady(list, true) && CopyReady(list, false)
      && var rs1 := Records(sourceDir, listing[sourceDir], fs);
         var rs2 := Records(targetDir, listing[targetDir], fs);
         && AllKeyed(rs1) && AllKeyed(rs2) && CacheInFs(KeyMap(rs2, platform), fs)
         && OrderedCreates(list.actions, platform)
              == CreateActions(Unmatched(rs1, KeyMap(rs2, platform), platform))
                 + UpdateActions(InBoth(rs1, Rebuilt(KeyMap(rs2, platform), targetDir, fs), platform))
         && OrderedDeletes(list.actions, platform)
              == Reverse(DeleteActions(Unmatched(rs2, KeyMap(rs1, platform), platform)))
  {
    var rs1 := Records(sourceDir, listing[sourceDir], fs);
    var rs2 := Records(targetDir, listing[targetDir], fs);
    WalkableRecordsNamed(sourceDir, fs, listing);
    WalkableRecordsNamed(targetDir, fs, listing);
    CachedPathsReadable(targetDir, listing[targetDir], fs, platform);
    ActionsQueues(rs1, rs2, targetDir, fs, platform);
    assert TargetActions(sourceDir, targetDir, fs, listing, platform) == Actions(rs1, rs2, targetDir, fs, platform);
  }

  // ---------------------------------------------------------------------
  // Copier
  // ---------------------------------------------------------------------

  /** The body of the loop over action lists: both queues, both loops, one counter. */
  method CopyList(list: FileInfoParserActionList, enableDeletes: bool, platform: Platform)
    returns (effects: seq<Effect>, counter: nat)
    requires CopyReady(list, enableDeletes)
    ensures (effects, counter) == ListRun(list, enableDeletes, platform)
  {
    var orderedCreates := OrderedCreates(list.actions, platform);
    var orderedDeletes := OrderedDeletes(list.actions, platform);
    effects, counter := RunQueues(orderedCreates, orderedDeletes, list.targetDirectory, enableDeletes, platform);
  }

  /** The create loop, then the delete loop, counting every action either of them handles. */
  method RunQueues(orderedCreates: seq<FileInfoParserAction>, orderedDeletes: seq<FileInfoParserAction>,
                   targetDirectory: string, enableDeletes: bool, platform: Platform)
    returns (effects: seq<Effect>, counter: nat)
    requires forall a :: a in orderedCreates ==> CreateReady(a)
    requires forall a :: a in orderedDeletes ==> DeleteReady(a, enableDeletes)
    ensures (effects, counter) == QueuesRun(orderedCreates, orderedDeletes, targetDirectory, enableDeletes, platform)
  {
    var created := RunCreates(orderedCreates, targetDirectory, platform);
    var removed, handled := RunDeletes(orderedDeletes, enableDeletes);
    QueuesRunSplit(orderedCreates, orderedDeletes, targetDirectory, enableDeletes, platform);
    effects := created + removed;
    counter := |orderedCreates| + handled;
  }

  /** The create loop: one copy or directory creation per create or update. */
  method RunCreates(orderedCreates: seq<FileInfoParserAction>, targetDirectory: string, platform: Platform)
    returns (effects: seq<Effect>)
    requires forall a :: a in orderedCreates ==> CreateReady(a)
    ensures effects == CreateRun(orderedCreates, targetDirectory, platform)
  {
    effects := [];
    for i := 0 to |orderedCreates|
      invariant effects == CreateRun(orderedCreates[..i], targetDirectory, platform)
    {
      assert orderedCreates[..i + 1][..i] == orderedCreates[..i];
      var c := orderedCreates[i];
      assert c in orderedCreates;
      match c.actionType {
        case Create =>
          var dst := DestinationFromSegment(c, targetDirectory, platform);
          var src := c.source.value.path;
          if c.source.value.isFile {
            effects := effects + [Copy(src, dst)];
          } else {
            effects := effects + [CreateDir(dst)];
          }
        case Update =>
          var src := c.source.value.path;
          var dst := c.destination.value.path;
          if c.source.value.isFile {
            effects := effects + [Copy(src, dst)];
          } else {
            effects := effects + [CreateDir(dst)];
          }
        case Delete =>
      }
    }
    assert orderedCreates[..|orderedCreates|] == orderedCreates;
  }

  /** The run of both queues is the create run followed by the delete run, the counter adding the creates. */
  lemma QueuesRunSplit(creates: seq<FileInfoParserAction>, deletes: seq<FileInfoParserAction>,
                       targetDirectory: string, enableDeletes: bool, platform: Platform)
    requires forall a :: a in creates ==> CreateReady(a)
    requires forall a :: a in deletes ==> DeleteReady(a, enableDeletes)
    ensures QueuesRun(creates, deletes, targetDirectory, enableDeletes, platform).0
      == CreateRun(creates, targetDirectory, platform) + DeleteRun(deletes, enableDeletes).0
    ensures QueuesRun(creates, deletes, targetDirectory, enableDeletes, platform).1
      == |creates| + DeleteRun(deletes, enableDeletes).1
  {
  }

  /** The delete loop: a removal per Delete while deletes are enabled; a suppressed Delete ends it. */
  method RunDeletes(orderedDeletes: seq<FileInfoParserAction>, enableDeletes: bool)
    returns (effects: seq<Effect>, counter: nat)
    requires forall a :: a in orderedDeletes ==> DeleteReady(a, enableDeletes)
    ensures (effects, counter) == DeleteRun(orderedDeletes, enableDeletes)
  {
    effects, counter := [], 0;
    var j := 0;
    while j < |orderedDeletes|
      invariant 0 <= j <= |orderedDeletes|
      invariant forall a :: a in orderedDeletes[j..] ==> a in orderedDeletes
      invariant effects + DeleteRun(orderedDeletes[j..], enableDeletes).0 == DeleteRun(orderedDeletes, enableDeletes).0
      invariant counter + DeleteRun(orderedDeletes[j..], enableDeletes).1 == DeleteRun(orderedDeletes, enableDeletes).1
    {
      var d := orderedDeletes[j];
      DeleteRunAt(orderedDeletes, j, enableDeletes);
      match d.actionType {
        case Create =>
        case Update =>
        case Delete =>
          if enableDeletes {
            var destinationPath := d.destination.value.path;
            var file := d.destination.value.isFile;
            if file {
              effects := effects + [RemoveFile(destinationPath)];
            } else {
              effects := effects + [RemoveDir(destinationPath)];
            }
          } else {
            break;
          }
      }
      counter := counter + 1;
      j := j + 1;
    }
    assert j == |orderedDeletes| ==> orderedDeletes[j..] == [];
    assert DeleteRun(orderedDeletes[j..], enableDeletes) == ([], 0);
    assert effects + [] == effects;
  }

  /** The delete loop's step at position `j` of its queue. */
  lemma DeleteRunAt(queue: seq<FileInfoParserAction>, j: nat, enableDeletes: bool)
    requires forall a :: a in queue ==> DeleteReady(a, enableDeletes)
    requires j < |queue|
    ensures DeleteReady(queue[j], enableDeletes)
    ensures forall a :: a in queue[j + 1..] ==> a in queue
    ensures var rest := DeleteRun(queue[j + 1..], enableDeletes);
      DeleteRun(queue[j..], enableDeletes)
        == if queue[j].actionType != Delete then (rest.0, rest.1 + 1)
           else if enableDeletes then ([Removal(queue[j])] + rest.0, rest.1 + 1)
           else ([], 0)
  {
    assert queue[j] in queue;
    assert queue[j..][1..] == queue[j + 1..];
    assert forall a :: a in queue[j..] ==> a in queue;
  }

  /** `incremental_copy`: the action lists one after another, each with its own counter. */
  method IncrementalCopy(lists: seq<FileInfoParserActionList>, enableDeletes: bool, platform: Platform)
    returns (trace: seq<Effect>, counters: seq<nat>)
    requires AllCopyReady(lists, enableDeletes)
    ensures trace == Trace(lists, enableDeletes, platform)
    ensures counters == Counters(lists, enableDeletes, platform)
  {
    trace, counters := [], [];
    for k := 0 to |lists|
      invariant trace == Trace(lists[..k], enableDeletes, platform)
      invariant counters == Counters(lists[..k], enableDeletes, platform)
    {
      TraceStep(lists, k, enableDeletes, platform);
      CountersStep(lists, k, enableDeletes, platform);
      var effects, counter := CopyList(lists[k], enableDeletes, platform);
      trace := trace + effects;
      counters := counters + [counter];
    }
    assert lists[..|lists|] == lists;
  }

  /** One more list extends the trace by its effects. */
  lemma TraceStep(lists: seq<FileInfoParserActionList>, k: nat, enableDeletes: bool, platform: Platform)
    requires AllCopyReady(lists, enableDeletes) && k < |lists|
    ensures AllCopyReady(lists[..k], enableDeletes) && AllCopyReady(lists[..k + 1], enableDeletes)
    ensures Trace(lists[..k + 1], enableDeletes, platform)
      == Trace(lists[..k], enableDeletes, platform) + ListRun(lists[k], enableDeletes, platform).0
  {
    assert lists[..k + 1][..k] == lists[..k];
  }

  /** One more list extends the counters by its counter. */
  lemma CountersStep(lists: seq<FileInfoParserActionList>, k: nat, enableDeletes: bool, platform: Platform)
    requires AllCopyReady(lists, enableDeletes) && k < |lists|
    ensures AllCopyReady(lists[..k], enableDeletes) && AllCopyReady(lists[..k + 1], enableDeletes)
    ensures Counters(lists[..k + 1], enableDeletes, platform)
      == Counters(lists[..k], enableDeletes, platform) + [ListRun(lists[k], enableDeletes, platform).1]
  {
    assert lists[..k + 1][..k] == lists[..k];
  }
}
