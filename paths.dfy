/**
  The path model of src/paths.rs.

  The source keeps a path as a singly linked chain of `PathSegment` nodes,
  each holding one name. Here a chain is the sequence of its names, head
  first; every chain the source builds has at least one node, so the
  functions and methods over chains ask for `|chain| >= 1` where the source
  holds a `&PathSegment`.
 */
module Paths {
  import opened Wrappers
  import opened Utilities
  import opened Sequences

  const WindowsSplitter: char := '\\'
  const UnixSplitter: char := '/'
  /** The internal separator every path is normalised to before splitting. */
  const Splitter: char := '|'

  /** The platform `cfg!` selects; its separator is `\` on Windows and `/` elsewhere. */
  datatype Platform = Windows | Unix | Other

  function PlatformSeparator(platform: Platform): (c: char)
    ensures c == WindowsSplitter || c == UnixSplitter
    ensures c == WindowsSplitter <==> platform == Windows
  {
    match platform
    case Windows => WindowsSplitter
    case Unix => UnixSplitter
    case Other => UnixSplitter
  }

  // ---------------------------------------------------------------------
  // Sequences of names
  // ---------------------------------------------------------------------

  function Reverse<T>(xs: seq<T>): (r: seq<T>)
    ensures |r| == |xs|
    ensures forall i :: 0 <= i < |xs| ==> r[i] == xs[|xs| - 1 - i]
  {
    if |xs| == 0 then [] else [xs[|xs| - 1]] + Reverse(xs[..|xs| - 1])
  }

  lemma ReverseReverse<T>(xs: seq<T>)
    ensures Reverse(Reverse(xs)) == xs
  {
  }

  /** Number of occurrences of `c` in `s`. */
  function Count(s: string, c: char): (n: nat)
    ensures n <= |s|
    ensures n == 0 <==> c !in s
  {
    if |s| == 0 then 0
    else
      assert s == [s[0]] + s[1..];
      (if s[0] == c then 1 else 0) + Count(s[1..], c)
  }

  /** A character `normalized_splitter` splits at. */
  predicate IsSeparator(c: char) {
    c == WindowsSplitter || c == UnixSplitter || c == Splitter
  }

  /** Number of separator characters in `s`. */
  function SeparatorCount(s: string): nat {
    if |s| == 0 then 0 else (if IsSeparator(s[0]) then 1 else 0) + SeparatorCount(s[1..])
  }

  /** A name the parser can produce: it holds no separator character. */
  predicate IsName(s: string) {
    WindowsSplitter !in s && UnixSplitter !in s && Splitter !in s
  }

  predicate AllNames(names: seq<string>) {
    forall k :: 0 <= k < |names| ==> IsName(names[k])
  }

  /** `str::split` on one character: `k` occurrences give `k + 1` pieces, empty ones included. */
  function Split(s: string, sep: char): (parts: seq<string>)
    ensures |parts| == Count(s, sep) + 1
  {
    if |s| == 0 then [""]
    else
      var rest := Split(s[1..], sep);
      if s[0] == sep then [""] + rest
      else [[s[0]] + rest[0]] + rest[1..]
  }

  /** No piece of a split holds the separator, and every character of a piece comes from the string. */
  lemma {:induction false} SplitPieces(s: string, sep: char)
    ensures forall k :: 0 <= k < |Split(s, sep)| ==> sep !in Split(s, sep)[k]
    ensures forall k, c :: 0 <= k < |Split(s, sep)| && c in Split(s, sep)[k] ==> c in s
    decreases |s|
  {
    if |s| > 0 {
      SplitPieces(s[1..], sep);
      assert forall c :: c in s[1..] ==> c in s;
      var rest := Split(s[1..], sep);
      var parts := Split(s, sep);
      if s[0] != sep {
        assert parts == [[s[0]] + rest[0]] + rest[1..];
        assert forall k :: 1 <= k < |parts| ==> parts[k] == rest[k];
        forall c | c in parts[0]
          ensures c != sep && c in s
        {
          var i :| 0 <= i < |parts[0]| && parts[0][i] == c;
          if i > 0 {
            assert rest[0][i - 1] == c;
          }
        }
      } else {
        assert parts == [""] + rest;
        assert forall k :: 1 <= k < |parts| ==> parts[k] == rest[k - 1];
      }
    }
  }

  /** The names joined with `sep` between them and no separator after the last one. */
  function Join(names: seq<string>, sep: char): string {
    if |names| == 0 then ""
    else if |names| == 1 then names[0]
    else names[0] + [sep] + Join(names[1..], sep)
  }

  lemma {:induction false} JoinSnoc(names: seq<string>, last: string, sep: char)
    requires |names| >= 1
    ensures Join(names + [last], sep) == Join(names, sep) + [sep] + last
    decreases |names|
  {
    if |names| == 1 {
      assert (names + [last])[1..] == [last];
    } else {
      assert (names + [last])[1..] == names[1..] + [last];
      JoinSnoc(names[1..], last, sep);
    }
  }

  /** Joining the pieces of a split gives the string back. */
  lemma {:induction false} JoinSplit(s: string, sep: char)
    ensures Join(Split(s, sep), sep) == s
    decreases |s|
  {
    if |s| > 0 {
      JoinSplit(s[1..], sep);
      if s[0] == sep {
        JoinSplitAtSeparator(s, sep);
      } else {
        JoinSplitAtChar(s, sep);
      }
    }
  }

  /** The step of `JoinSplit` for a string that starts with the separator. */
  lemma {:induction false} JoinSplitAtSeparator(s: string, sep: char)
    requires |s| > 0 && s[0] == sep
    requires Join(Split(s[1..], sep), sep) == s[1..]
    ensures Join(Split(s, sep), sep) == s
  {
    var rest := Split(s[1..], sep);
    HeadTail([""], rest);
    AppendEmpty([sep]);
    FirstRest(s);
  }

  /** The step of `JoinSplit` for a string that starts with another character. */
  lemma {:induction false} JoinSplitAtChar(s: string, sep: char)
    requires |s| > 0 && s[0] != sep
    requires Join(Split(s[1..], sep), sep) == s[1..]
    ensures Join(Split(s, sep), sep) == s
  {
    var rest := Split(s[1..], sep);
    var head := [s[0]] + rest[0];
    var parts := [head] + rest[1..];
    FirstRest(s);
    if |rest| > 1 {
      var tail := Join(rest[1..], sep);
      HeadTail([head], rest[1..]);
      AppendAssoc([s[0]], rest[0], [sep]);
      AppendAssoc([s[0]], rest[0] + [sep], tail);
    }
  }

  /** Splitting at a separator distributes over the two sides. */
  lemma {:induction false} SplitConcat(x: string, y: string, sep: char)
    ensures Split(x + [sep] + y, sep) == Split(x, sep) + Split(y, sep)
    decreases |x|
  {
    if |x| == 0 {
      assert x + [sep] + y == [sep] + y;
      HeadTail([sep], y);
    } else {
      SplitConcat(x[1..], y, sep);
      if x[0] == sep {
        SplitConcatAtSeparator(x, y, sep);
      } else {
        SplitConcatAtChar(x, y, sep);
      }
    }
  }

  /** The step of `SplitConcat` when `x` starts with the separator. */
  lemma {:induction false} SplitConcatAtSeparator(x: string, y: string, sep: char)
    requires |x| > 0 && x[0] == sep
    requires Split(x[1..] + [sep] + y, sep) == Split(x[1..], sep) + Split(y, sep)
    ensures Split(x + [sep] + y, sep) == Split(x, sep) + Split(y, sep)
  {
    ConcatTail(x, [sep], y);
    AppendAssoc([""], Split(x[1..], sep), Split(y, sep));
  }

  /** The step of `SplitConcat` when `x` starts with another character. */
  lemma {:induction false} SplitConcatAtChar(x: string, y: string, sep: char)
    requires |x| > 0 && x[0] != sep
    requires Split(x[1..] + [sep] + y, sep) == Split(x[1..], sep) + Split(y, sep)
    ensures Split(x + [sep] + y, sep) == Split(x, sep) + Split(y, sep)
  {
    ConcatTail(x, [sep], y);
    var front := Split(x[1..], sep);
    var back := Split(y, sep);
    HeadTail(front, back);
    AppendAssoc([[x[0]] + front[0]], front[1..], back);
  }

  lemma {:induction false} SplitOfName(s: string, sep: char)
    requires sep !in s
    ensures Split(s, sep) == [s]
    decreases |s|
  {
    if |s| > 0 {
      SplitOfName(s[1..], sep);
      assert s == [s[0]] + s[1..];
    }
  }

  /** Splitting a join gives the names back when no name holds the separator. */
  lemma {:induction false} SplitJoin(names: seq<string>, sep: char)
    requires |names| >= 1
    requires forall k :: 0 <= k < |names| ==> sep !in names[k]
    ensures Split(Join(names, sep), sep) == names
    decreases |names|
  {
    SplitOfName(names[0], sep);
    if |names| > 1 {
      SplitJoin(names[1..], sep);
      SplitConcat(names[0], Join(names[1..], sep), sep);
    }
  }

  /** A join holds only the separator and the names' own characters. */
  lemma {:induction false} JoinAvoids(names: seq<string>, sep: char, c: char)
    requires c != sep
    requires forall k :: 0 <= k < |names| ==> c !in names[k]
    ensures c !in Join(names, sep)
    decreases |names|
  {
    if |names| > 1 {
      JoinAvoids(names[1..], sep, c);
    }
  }

  // ---------------------------------------------------------------------
  // PathParser::normalized_splitter and build_segments
  // ---------------------------------------------------------------------

  /** Both `\` and `/` replaced by the internal separator. */
  function Normalize(path: string): (r: string)
    ensures |r| == |path|
    ensures forall i :: 0 <= i < |path| ==> r[i] == (if path[i] == WindowsSplitter || path[i] == UnixSplitter then Splitter else path[i])
  {
    seq(|path|, i requires 0 <= i < |path| =>
      if path[i] == WindowsSplitter || path[i] == UnixSplitter then Splitter else path[i])
  }

  lemma {:induction false} NormalizeCount(path: string)
    ensures Count(Normalize(path), Splitter) == SeparatorCount(path)
    decreases |path|
  {
    if |path| > 0 {
      NormalizeCount(path[1..]);
      assert Normalize(path)[1..] == Normalize(path[1..]);
    }
  }

  lemma NormalizeConcat(x: string, y: string)
    ensures Normalize(x + y) == Normalize(x) + Normalize(y)
  {
  }

  lemma NormalizeName(s: string)
    requires IsName(s)
    ensures Normalize(s) == s
  {
  }

  /** The component filter `!x.is_empty() || x != "?"` as the source writes it. */
  predicate KeepComponent(x: string) {
    !(|x| == 0) || x != "?"
  }

  function FilterComponents(xs: seq<string>): seq<string> {
    if |xs| == 0 then [] else (if KeepComponent(xs[0]) then [xs[0]] else []) + FilterComponents(xs[1..])
  }

  /** The filter keeps every component: an empty string is never "?". */
  lemma {:induction false} FilterKeepsEverything(xs: seq<string>)
    ensures FilterComponents(xs) == xs
    decreases |xs|
  {
    if |xs| > 0 {
      FilterKeepsEverything(xs[1..]);
      assert KeepComponent(xs[0]);
    }
  }

  /**
    `normalized_splitter`: `\` and `/` treated alike, nothing dropped. A path
    with `k` separator characters has exactly `k + 1` names, empty ones
    included, and joining them back with the internal separator gives the
    normalised path.
   */
  function NormalizedSplitter(path: string): (names: seq<string>)
    ensures |names| == SeparatorCount(path) + 1
    ensures AllNames(names)
    ensures Join(names, Splitter) == Normalize(path)
  {
    var fixed := Normalize(path);
    var parts := Split(fixed, Splitter);
    FilterKeepsEverything(parts);
    NormalizeCount(path);
    JoinSplit(fixed, Splitter);
    SplitPieces(fixed, Splitter);
    assert WindowsSplitter !in fixed && UnixSplitter !in fixed;
    FilterComponents(parts)
  }

  /** Two paths that differ only in which of `\` and `/` they use parse to the same names. */
  lemma SlashesAreAlike(p: string, q: string)
    requires |p| == |q|
    requires forall i :: 0 <= i < |p| ==>
      p[i] == q[i] || ((p[i] == WindowsSplitter || p[i] == UnixSplitter) && (q[i] == WindowsSplitter || q[i] == UnixSplitter))
    ensures NormalizedSplitter(p) == NormalizedSplitter(q)
  {
    assert Normalize(p) == Normalize(q);
  }

  /** Parsing a rendered chain gives the chain back (render, then parse). */
  lemma ParseJoin(names: seq<string>, sep: char)
    requires |names| >= 1 && AllNames(names)
    requires IsSeparator(sep)
    ensures NormalizedSplitter(Join(names, sep)) == names
  {
    NormalizeJoin(names, sep);
    SplitJoin(names, Splitter);
    FilterKeepsEverything(names);
  }

  lemma {:induction false} NormalizeJoin(names: seq<string>, sep: char)
    requires AllNames(names)
    requires IsSeparator(sep)
    ensures Normalize(Join(names, sep)) == Join(names, Splitter)
    decreases |names|
  {
    if |names| == 1 {
      NormalizeName(names[0]);
    } else if |names| > 1 {
      NormalizeJoin(names[1..], sep);
      NormalizeName(names[0]);
      NormalizeConcat(names[0] + [sep], Join(names[1..], sep));
      NormalizeConcat(names[0], [sep]);
    }
  }

  /** Parsing two paths joined by a separator gives the two name lists one after the other. */
  lemma ParseConcat(p: string, c: char, q: string)
    requires IsSeparator(c)
    ensures NormalizedSplitter(p + [c] + q) == NormalizedSplitter(p) + NormalizedSplitter(q)
  {
    NormalizeConcat(p + [c], q);
    NormalizeConcat(p, [c]);
    assert Normalize([c]) == [Splitter];
    assert Normalize(p + [c] + q) == Normalize(p) + [Splitter] + Normalize(q);
    SplitConcat(Normalize(p), Normalize(q), Splitter);
    FilterKeepsEverything(Split(Normalize(p + [c] + q), Splitter));
    FilterKeepsEverything(Split(Normalize(p), Splitter));
    FilterKeepsEverything(Split(Normalize(q), Splitter));
  }

  /** `PathParser`: the head of a chain, or `None`. */
  datatype PathParser = PathParser(segment: Option<seq<string>>)

  /** `PathParser::new`, as the value `build_segments` produces. */
  function Parse(path: string): (p: PathParser)
    ensures p.segment.Some?
    ensures |p.segment.value| == SeparatorCount(path) + 1
    ensures AllNames(p.segment.value) && Join(p.segment.value, Splitter) == Normalize(path)
  {
    PathParser(Some(NormalizedSplitter(path)))
  }

  /**
    `build_segments`: the names are reversed and the chain is built by
    prepending one node per name, so it ends up in the original order,
    head first, and is never empty.
   */
  method BuildSegments(path: string) returns (p: PathParser)
    ensures p.segment.Some? && |p.segment.value| >= 1
    ensures p == Parse(path)
  {
    var normalized := NormalizedSplitter(path);
    normalized := Reverse(normalized);
    var nextSegment: Option<seq<string>> := None;
    for i := 0 to |normalized|
      invariant nextSegment == if i == 0 then None else Some(Reverse(normalized[..i]))
    {
      var next := if nextSegment.Some? then nextSegment.value else [];
      assert normalized[..i + 1][..i] == normalized[..i];
      nextSegment := Some([normalized[i]] + next);
    }
    assert normalized[..|normalized|] == normalized;
    ReverseReverse(NormalizedSplitter(path));
    p := PathParser(nextSegment);
  }

  // ---------------------------------------------------------------------
  // PathSegment
  // ---------------------------------------------------------------------

  /** The chain from each node on, as `get_remaining_segments` collects them. */
  function Tails(chain: seq<string>): seq<seq<string>> {
    seq(|chain|, i requires 0 <= i < |chain| => chain[i..])
  }

  /** `get_remaining_segments`: walks the `next` links, collecting every node from the head on. */
  method GetRemainingSegments(chain: seq<string>) returns (results: seq<seq<string>>)
    requires |chain| >= 1
    ensures |results| == |chain|
    ensures forall i :: 0 <= i < |chain| ==> results[i] == chain[i..]
  {
    results := [chain];
    var segOption: Option<seq<string>> := if |chain| > 1 then Some(chain[1..]) else None;
    while segOption.Some?
      invariant 1 <= |results| <= |chain|
      invariant forall i :: 0 <= i < |results| ==> results[i] == chain[i..]
      invariant segOption == if |results| < |chain| then Some(chain[|results|..]) else None
      decreases |chain| - |results|
    {
      var node := segOption.value;
      results := results + [node];
      segOption := if |node| > 1 then Some(node[1..]) else None;
    }
  }

  /** `get_segments`: the name of every node from the head on, which is the chain itself. */
  function GetSegments(chain: seq<string>): (names: seq<string>)
    ensures names == chain
  {
    var remaining := Tails(chain);
    seq(|remaining|, i requires 0 <= i < |remaining| => remaining[i][0])
  }

  /** `name` then `sep` for every name: the string before the final `pop`. */
  function Terminated(names: seq<string>, sep: char): string {
    if |names| == 0 then "" else Terminated(names[..|names| - 1], sep) + names[|names| - 1] + [sep]
  }

  lemma {:induction false} TerminatedJoin(names: seq<string>, sep: char)
    requires |names| >= 1
    ensures Terminated(names, sep) == Join(names, sep) + [sep]
    decreases |names|
  {
    var init := names[..|names| - 1];
    if |init| >= 1 {
      TerminatedJoin(init, sep);
      JoinSnoc(init, names[|names| - 1], sep);
      assert init + [names[|names| - 1]] == names;
    }
  }

  /** `get_segment_string`: every name followed by `separator`, then the last separator popped. */
  method GetSegmentString(chain: seq<string>, separator: char) returns (s: string)
    requires |chain| >= 1
    ensures s == Join(chain, separator)
  {
    var remaining := GetRemainingSegments(chain);
    s := "";
    for k := 0 to |remaining|
      invariant s == Terminated(chain[..k], separator)
    {
      assert chain[..k + 1][..k] == chain[..k];
      s := s + remaining[k][0];
      s := s + [separator];
    }
    assert chain[..|remaining|] == chain;
    TerminatedJoin(chain, separator);
    if |s| > 0 {
      s := s[..|s| - 1];
    }
  }

  /** `get_default_segment_string`: the chain joined with the platform separator. */
  function DefaultSegmentString(chain: seq<string>, platform: Platform): string {
    Join(chain, PlatformSeparator(platform))
  }

  /** The default segment string of a parsed chain parses back to the chain. */
  lemma DefaultSegmentStringParses(chain: seq<string>, platform: Platform)
    requires |chain| >= 1 && AllNames(chain)
    ensures NormalizedSplitter(DefaultSegmentString(chain, platform)) == chain
  {
    ParseJoin(chain, PlatformSeparator(platform));
  }

  /**
    `get_segment_length`: the default string split at the internal
    separator. Names the parser builds never hold that separator, so the
    result is 1 whatever the depth.
   */
  function SegmentLength(chain: seq<string>, platform: Platform): (n: nat)
    ensures n >= 1
    ensures (forall k :: 0 <= k < |chain| ==> Splitter !in chain[k]) ==> n == 1
  {
    var segmentString := DefaultSegmentString(chain, platform);
    if forall k :: 0 <= k < |chain| ==> Splitter !in chain[k] then
      JoinAvoids(chain, PlatformSeparator(platform), Splitter);
      |Split(segmentString, Splitter)|
    else
      |Split(segmentString, Splitter)|
  }

  /**
    `identical`: both chains rendered with the internal separator and split
    again; equal counts, and at every position the other's lower-cased name
    occurs in this one's.
   */
  predicate IsIdentical(self: seq<string>, other: seq<string>) {
    var split1 := Split(Join(self, Splitter), Splitter);
    var split2 := Split(Join(other, Splitter), Splitter);
    |split1| == |split2| && forall i :: 0 <= i < |split1| ==> StringMatch(split1[i], split2[i])
  }

  /** `identical`, with its index loop and early return. */
  method Identical(self: seq<string>, other: seq<string>) returns (b: bool)
    requires |self| >= 1 && |other| >= 1
    ensures b == IsIdentical(self, other)
  {
    var str1 := GetSegmentString(self, Splitter);
    var str2 := GetSegmentString(other, Splitter);
    var split1 := Split(str1, Splitter);
    var split2 := Split(str2, Splitter);
    if |split1| != |split2| {
      return false;
    }
    for i := 0 to |split1|
      invariant forall j :: 0 <= j < i ==> StringMatch(split1[j], split2[j])
    {
      if !StringMatchStr(split1[i], split2[i]) {
        return false;
      }
    }
    return true;
  }

  /** On parser-built chains `identical` compares the names position by position. */
  lemma IdenticalOnNames(self: seq<string>, other: seq<string>)
    requires |self| >= 1 && AllNames(self)
    requires |other| >= 1 && AllNames(other)
    ensures IsIdentical(self, other) <==>
      |self| == |other| && forall i :: 0 <= i < |self| ==> StringMatch(self[i], other[i])
  {
    SplitJoin(self, Splitter);
    SplitJoin(other, Splitter);
  }

  /** Chains of different lengths are never identical. */
  lemma IdenticalNeedsSameLength(self: seq<string>, other: seq<string>)
    requires |self| >= 1 && AllNames(self)
    requires |other| >= 1 && AllNames(other)
    requires |self| != |other|
    ensures !IsIdentical(self, other)
  {
    IdenticalOnNames(self, other);
  }

  /** Every chain is identical to itself. */
  lemma IdenticalReflexive(self: seq<string>)
    ensures IsIdentical(self, self)
  {
    var split := Split(Join(self, Splitter), Splitter);
    forall i | 0 <= i < |split|
      ensures StringMatch(split[i], split[i])
    {
      StringMatchReflexive(split[i]);
    }
  }

  /** `identical` is not symmetric: `C:/Users` is identical to `C:/User`, not the other way round. */
  lemma IdenticalNotSymmetric()
    ensures IsIdentical(["C:", "Users"], ["C:", "User"])
    ensures !IsIdentical(["C:", "User"], ["C:", "Users"])
  {
    var a: seq<string> := ["C:", "Users"];
    var b: seq<string> := ["C:", "User"];
    assert AllNames(a) && AllNames(b);
    IdenticalOnNames(a, b);
    IdenticalOnNames(b, a);
    StringMatchReflexive("C:");
    assert MatchesAt(LowerStr("Users"), LowerStr("User"), 0);
    assert !StringMatch("User", "Users");
  }

  /**
    The scan of `contains_all_of_segment`: `ctr` is the folder position to
    match next; a match advances it, a mismatch resets it to 0 without
    testing the current name again.
   */
  function ScanFrom(names: seq<string>, folder: seq<string>, ctr: nat): bool
    requires ctr < |folder|
    decreases |names|
  {
    if |names| == 0 then false
    else if StringMatch(folder[ctr], names[0]) then
      ctr + 1 == |folder| || ScanFrom(names[1..], folder, ctr + 1)
    else ScanFrom(names[1..], folder, 0)
  }

  /** `contains_all_of_segment`, as the source computes it. */
  predicate ContainsAll(self: seq<string>, folder: seq<string>) {
    ScanFrom(Split(Join(self, Splitter), Splitter), Split(Join(folder, Splitter), Splitter), 0)
  }

  /** `contains_all_of_segment`, with its counter and early return. */
  method ContainsAllOfSegment(self: seq<string>, folder: seq<string>) returns (b: bool)
    requires |self| >= 1 && |folder| >= 1
    ensures b == ContainsAll(self, folder)
  {
    var str1 := GetSegmentString(self, Splitter);
    var str2 := GetSegmentString(folder, Splitter);
    var split1 := Split(str1, Splitter);
    var split2 := Split(str2, Splitter);
    var splitCtr := 0;
    for t := 0 to |split1|
      invariant splitCtr < |split2|
      invariant ScanFrom(split1, split2, 0) == ScanFrom(split1[t..], split2, splitCtr)
    {
      assert split1[t..][1..] == split1[t + 1..];
      if StringMatchStr(split2[splitCtr], split1[t]) {
        splitCtr := splitCtr + 1;
        if splitCtr == |split2| {
          return true;
        }
      } else {
        splitCtr := 0;
      }
    }
    return false;
  }

  lemma {:induction false} ScanSelf(names: seq<string>, i: nat)
    requires i < |names|
    ensures ScanFrom(names[i..], names, i)
    decreases |names| - i
  {
    StringMatchReflexive(names[i]);
    if i + 1 < |names| {
      ScanSelf(names, i + 1);
      assert names[i..][1..] == names[i + 1..];
    }
  }

  /** A path contains itself. */
  lemma ContainsItself(self: seq<string>)
    ensures ContainsAll(self, self)
  {
    var split := Split(Join(self, Splitter), Splitter);
    ScanSelf(split, 0);
    assert split[0..] == split;
  }

  /** The folder's names match, one for one, a run of `names` starting at `s`. */
  predicate RunAt(names: seq<string>, folder: seq<string>, s: nat) {
    s + |folder| <= |names| && forall j :: 0 <= j < |folder| ==> StringMatch(folder[j], names[s + j])
  }

  lemma {:induction false} ScanFindsRun(names: seq<string>, folder: seq<string>, p: nat, ctr: nat)
    requires p <= |names| && ctr <= p && ctr < |folder|
    requires forall j :: 0 <= j < ctr ==> StringMatch(folder[j], names[p - ctr + j])
    requires ScanFrom(names[p..], folder, ctr)
    ensures exists s: nat :: RunAt(names, folder, s)
    decreases |names| - p
  {
    assert names[p..][1..] == names[p + 1..];
    if StringMatch(folder[ctr], names[p]) {
      if ctr + 1 == |folder| {
        assert RunAt(names, folder, p - ctr);
      } else {
        ScanFindsRun(names, folder, p + 1, ctr + 1);
      }
    } else {
      ScanFindsRun(names, folder, p + 1, 0);
    }
  }

  /** What the scan reports is a real containment: some run of the path matches the folder. */
  lemma ContainsAllSound(self: seq<string>, folder: seq<string>)
    requires ContainsAll(self, folder)
    ensures exists s: nat :: RunAt(Split(Join(self, Splitter), Splitter), Split(Join(folder, Splitter), Splitter), s)
  {
    var names := Split(Join(self, Splitter), Splitter);
    assert names[0..] == names;
    ScanFindsRun(names, Split(Join(folder, Splitter), Splitter), 0, 0);
  }

  /**
    The scan misses a run that starts inside a failed partial match:
    `a/a/b` holds the run `a/b`, yet the scan says no.
   */
  lemma ContainsAllMissesOverlappingRun()
    ensures RunAt(["a", "a", "b"], ["a", "b"], 1)
    ensures !ContainsAll(["a", "a", "b"], ["a", "b"])
  {
    var names: seq<string> := ["a", "a", "b"];
    var folder: seq<string> := ["a", "b"];
    assert AllNames(names) && AllNames(folder);
    SplitJoin(names, Splitter);
    SplitJoin(folder, Splitter);
    StringMatchReflexive("a");
    StringMatchReflexive("b");
    assert !StringMatch("b", "a");
    assert !StringMatch("a", "b");
    assert names[1..] == ["a", "b"] && names[1..][1..] == ["b"] && names[1..][1..][1..] == [];
  }

  /**
    Corrected containment: a sliding window that restarts at every start
    position, `start` being the first one still to try.
   */
  function ContainsRunFrom(names: seq<string>, folder: seq<string>, start: nat): (b: bool)
    ensures b <==> exists s: nat :: start <= s && RunAt(names, folder, s)
    decreases |names| + 1 - start
  {
    if start + |folder| > |names| then false
    else if forall j :: 0 <= j < |folder| ==> StringMatch(folder[j], names[start + j]) then
      assert RunAt(names, folder, start);
      true
    else ContainsRunFrom(names, folder, start + 1)
  }

  /** Corrected `contains_all_of_segment`: true exactly when some run of the path matches the folder. */
  predicate ContainsRun(self: seq<string>, folder: seq<string>) {
    ContainsRunFrom(Split(Join(self, Splitter), Splitter), Split(Join(folder, Splitter), Splitter), 0)
  }

  /** The corrected test finds the overlapping run, and accepts whatever the scan accepts. */
  lemma ContainsRunComplete(self: seq<string>, folder: seq<string>)
    ensures ContainsAll(self, folder) ==> ContainsRun(self, folder)
    ensures ContainsRun(["a", "a", "b"], ["a", "b"])
  {
    if ContainsAll(self, folder) {
      ContainsAllSound(self, folder);
    }
    var names: seq<string> := ["a", "a", "b"];
    var folder2: seq<string> := ["a", "b"];
    assert AllNames(names) && AllNames(folder2);
    SplitJoin(names, Splitter);
    SplitJoin(folder2, Splitter);
    ContainsAllMissesOverlappingRun();
  }

  // ---------------------------------------------------------------------
  // PathParser::get_differing_segment and append_segment
  // ---------------------------------------------------------------------

  /**
    Position `k` of `other` starts its differing tail: the base has run
    out there, or the other's name does not occur in the base's.
   */
  predicate DiffersAt(base: seq<string>, other: seq<string>, k: nat)
    requires k < |other|
  {
    k >= |base| || !StringMatch(base[k], other[k])
  }

  /** The first differing position of `other` at or after `from`. */
  function FirstDifference(base: seq<string>, other: seq<string>, from: nat): (r: Option<nat>)
    ensures r.Some? ==> from <= r.value < |other| && DiffersAt(base, other, r.value)
    ensures r.Some? ==> forall j :: from <= j < r.value ==> !DiffersAt(base, other, j)
    ensures r.None? ==> forall j :: from <= j < |other| ==> !DiffersAt(base, other, j)
    decreases |other| - from
  {
    if from >= |other| then None
    else if DiffersAt(base, other, from) then Some(from)
    else FirstDifference(base, other, from + 1)
  }

  /**
    `get_differing_segment`: the other chain's tail from the first position
    where it outruns the base or its name fails to match; `None` when there
    is no such position.
   */
  function DifferingSegment(base: seq<string>, other: seq<string>): (r: Option<seq<string>>)
    ensures r.None? <==> forall j :: 0 <= j < |other| ==> !DiffersAt(base, other, j)
    ensures r.Some? ==> exists k :: (0 <= k < |other| && DiffersAt(base, other, k) && r.value == other[k..]
                                     && forall j :: 0 <= j < k ==> !DiffersAt(base, other, j))
  {
    match FirstDifference(base, other, 0)
    case None => None
    case Some(k) => Some(other[k..])
  }

  /** The first differing position determines the differing tail. */
  lemma DifferingSegmentAt(base: seq<string>, other: seq<string>, k: nat)
    requires k < |other| && DiffersAt(base, other, k)
    requires forall j :: 0 <= j < k ==> !DiffersAt(base, other, j)
    ensures DifferingSegment(base, other) == Some(other[k..])
  {
  }

  /** `get_differing_segment`, walking the zip of both chains with an early return. */
  method GetDifferingSegment(base: seq<string>, other: seq<string>) returns (r: Option<seq<string>>)
    requires |base| >= 1 && |other| >= 1
    ensures r == DifferingSegment(base, other)
  {
    var otherSegmentList := GetRemainingSegments(other);
    var mySegments := GetRemainingSegments(base);
    var n := if |mySegments| >= |otherSegmentList| then |mySegments| else |otherSegmentList|;
    for i := 0 to n
      invariant forall j :: 0 <= j < i && j < |other| ==> !DiffersAt(base, other, j)
    {
      if i >= |mySegments| {
        // only the other chain has a node here
        DifferingSegmentAt(base, other, i);
        return Some(otherSegmentList[i]);
      } else if i < |otherSegmentList| {
        if !StringMatchStr(mySegments[i][0], otherSegmentList[i][0]) {
          DifferingSegmentAt(base, other, i);
          return Some(otherSegmentList[i]);
        }
      }
    }
    return None;
  }

  /** The relative suffix of an extended path is the extension (append, then take the suffix). */
  lemma DifferingSegmentOfExtension(base: seq<string>, rest: seq<string>)
    ensures DifferingSegment(base, base + rest) == if |rest| == 0 then None else Some(rest)
  {
    var other := base + rest;
    forall j | 0 <= j < |base|
      ensures !DiffersAt(base, other, j)
    {
      StringMatchReflexive(base[j]);
    }
    if |rest| > 0 {
      assert DiffersAt(base, other, |base|);
      assert other[|base|..] == rest;
    }
  }

  /**
    `append_segment`: this chain rendered with the platform separator and
    parsed again, followed by the parsed appended path, joined with the
    internal separator and parsed once more. For a parser-built chain that
    is this chain's names followed by the appended path's names.
   */
  function AppendSegment(self: PathParser, newSegment: string, platform: Platform): (r: PathParser)
    requires self.segment.Some?
    ensures |self.segment.value| >= 1 && AllNames(self.segment.value) ==>
      r == PathParser(Some(self.segment.value + NormalizedSplitter(newSegment)))
  {
    var segsArr := GetSegments(Parse(newSegment).segment.value);
    var mySegmentString := DefaultSegmentString(self.segment.value, platform);
    var myArr := GetSegments(Parse(mySegmentString).segment.value);
    var newArr := myArr + segsArr;
    var newPath := Join(newArr, Splitter);
    if |self.segment.value| >= 1 && AllNames(self.segment.value) then
      ParseJoin(self.segment.value, PlatformSeparator(platform));
      ParseJoin(newArr, Splitter);
      Parse(newPath)
    else
      Parse(newPath)
  }

  /** Appending a path gives the chain of the two paths joined by the platform separator. */
  lemma AppendSegmentIsConcatenation(p: string, q: string, platform: Platform)
    ensures AppendSegment(Parse(p), q, platform) == Parse(p + [PlatformSeparator(platform)] + q)
  {
    ParseConcat(p, PlatformSeparator(platform), q);
  }

  // ---------------------------------------------------------------------
  // FileInfoParser
  // ---------------------------------------------------------------------

  /** What `fs::metadata` reports and the record keeps. */
  datatype Metadata = Metadata(isDir: bool, len: nat, modified: int)

  /**
    One filesystem entry as seen from outside: its metadata, and what
    `Path::extension` and `Path::file_name` return for its path.
   */
  datatype Entry = Entry(metadata: Metadata, extension: Option<string>, fileName: Option<string>)

  /** `FileInfoParser`: one entry of a walk, with its path relative to the walked root. */
  datatype FileInfoParser = FileInfoParser(
    segment: Option<seq<string>>,
    metadata: Metadata,
    isFile: bool,
    isUncPath: bool,
    path: string,
    extension: Option<string>,
    filename: Option<string>)

  /** `str::replace(".", "")`. */
  function RemoveDots(s: string): (r: string)
    ensures '.' !in r
    ensures |r| + Count(s, '.') == |s|
    ensures '.' !in s ==> r == s
  {
    if |s| == 0 then ""
    else (if s[0] == '.' then "" else [s[0]]) + RemoveDots(s[1..])
  }

  /**
    The dot-file rule of `FileInfoParser::new`: a file name starting with
    `.` becomes the extension, with every `.` removed, and the record keeps
    no file name.
   */
  function DotfileRule(extension: Option<string>, fileName: Option<string>): (r: (Option<string>, Option<string>))
    ensures r.1.Some? ==> r.1 == fileName && r.0 == extension && !(|r.1.value| > 0 && r.1.value[0] == '.')
    ensures r.1.None? && fileName.Some? ==> r.0 == Some(RemoveDots(fileName.value)) && '.' !in r.0.value
    ensures fileName.None? ==> r == (extension, None)
  {
    match fileName
    case Some(f) =>
      if |f| > 0 && f[0] == '.' then (Some(RemoveDots(f)), None) else (extension, Some(f))
    case None => (extension, None)
  }

  /**
    `FileInfoParser::new`: the record of `path` walked under `baseDirectory`,
    its segment the relative suffix of the path with respect to the base.
   */
  function NewFileInfoParser(path: string, baseDirectory: string, entry: Entry): (f: FileInfoParser)
    ensures f.path == path && f.metadata == entry.metadata
    ensures f.isFile <==> !entry.metadata.isDir
    ensures f.segment == DifferingSegment(NormalizedSplitter(baseDirectory), NormalizedSplitter(path))
    ensures (f.extension, f.filename) == DotfileRule(entry.extension, entry.fileName)
    ensures f.isUncPath == PathIsUnc(baseDirectory)
  {
    var basePath := Parse(baseDirectory);
    var subDirPath := Parse(path);
    var seg := DifferingSegment(basePath.segment.value, subDirPath.segment.value);
    var (extension, newFilename) := DotfileRule(entry.extension, entry.fileName);
    FileInfoParser(seg, entry.metadata, !entry.metadata.isDir, PathIsUnc(baseDirectory), path, extension, newFilename)
  }

  /**
    An entry at `base` + separator + `rel` gets the relative names of `rel`
    as its segment.
   */
  lemma RecordUnderRoot(base: string, c: char, rel: string, entry: Entry)
    requires IsSeparator(c)
    ensures NewFileInfoParser(base + [c] + rel, base, entry).segment == Some(NormalizedSplitter(rel))
  {
    ParseConcat(base, c, rel);
    DifferingSegmentOfExtension(NormalizedSplitter(base), NormalizedSplitter(rel));
  }

  /** A record's segment, when present, holds only parser-built names. */
  lemma RecordSegmentIsNames(path: string, baseDirectory: string, entry: Entry)
    ensures var f := NewFileInfoParser(path, baseDirectory, entry);
      f.segment.Some? ==> |f.segment.value| >= 1 && AllNames(f.segment.value)
  {
  }

  /**
    `match_extension`: directories always pass, a file without an extension
    never does, and any other file is decided by `match_list_or_all`, which
    is not part of this model and is taken as a parameter.
   */
  function MatchExtension(f: FileInfoParser, extensions: seq<string>, matchListOrAll: (string, seq<string>) -> bool): (b: bool)
    ensures !f.isFile ==> b
    ensures f.isFile && f.extension.None? ==> !b
    ensures f.isFile && f.extension.Some? ==> b == matchListOrAll(f.extension.value, extensions)
  {
    if !f.isFile then true
    else match f.extension
      case Some(extension) => matchListOrAll(extension, extensions)
      case None => false
  }

  /** A dot file is judged by its name without dots, whatever `Path::extension` said. */
  lemma DotfileExtensionMatch(path: string, base: string, entry: Entry, extensions: seq<string>,
                              matchListOrAll: (string, seq<string>) -> bool)
    requires !entry.metadata.isDir
    requires entry.fileName.Some? && |entry.fileName.value| > 0 && entry.fileName.value[0] == '.'
    ensures MatchExtension(NewFileInfoParser(path, base, entry), extensions, matchListOrAll)
      == matchListOrAll(RemoveDots(entry.fileName.value), extensions)
  {
  }

  // ---------------------------------------------------------------------
  // FileInfoParserAction
  // ---------------------------------------------------------------------

  datatype ActionType = Create | Update | Delete

  datatype Ordering = Less | Equal | Greater

  /** `FileInfoParserAction`: what to do, with the records it concerns. */
  datatype FileInfoParserAction = FileInfoParserAction(
    source: Option<FileInfoParser>,
    destination: Option<FileInfoParser>,
    actionType: ActionType)

  /** `FileInfoParserAction::new`: both records. */
  function NewAction(source: FileInfoParser, dest: FileInfoParser, t: ActionType): (a: FileInfoParserAction)
    ensures a.actionType == t && a.source == Some(source) && a.destination == Some(dest)
    ensures (a.source.Some? || a.destination.Some?) && OrderRecord(a) == source
  {
    FileInfoParserAction(Some(source), Some(dest), t)
  }

  /** `FileInfoParserAction::new_source`: the source record only. */
  function NewSourceAction(source: FileInfoParser, t: ActionType): (a: FileInfoParserAction)
    ensures a.actionType == t && a.destination.None?
    ensures (a.source.Some? || a.destination.Some?) && OrderRecord(a) == source
  {
    FileInfoParserAction(Some(source), None, t)
  }

  /** `FileInfoParserAction::new_destination`: the destination record only. */
  function NewDestinationAction(dest: FileInfoParser, t: ActionType): (a: FileInfoParserAction)
    ensures a.actionType == t && a.source.None?
    ensures (a.source.Some? || a.destination.Some?) && OrderRecord(a) == dest
  {
    FileInfoParserAction(None, Some(dest), t)
  }

  /** The record `partial_cmp` looks at: the source if there is one, else the destination. */
  function OrderRecord(a: FileInfoParserAction): FileInfoParser
    requires a.source.Some? || a.destination.Some?
  {
    if a.source.Some? then a.source.value else a.destination.value
  }

  /** `partial_cmp` can look at this action without a panic. */
  predicate Comparable(a: FileInfoParserAction) {
    (a.source.Some? || a.destination.Some?) && OrderRecord(a).segment.Some?
  }

  /** The sort key `partial_cmp` computes for an action. */
  function Depth(a: FileInfoParserAction, platform: Platform): nat
    requires Comparable(a)
  {
    SegmentLength(OrderRecord(a).segment.value, platform)
  }

  /** `partial_cmp`: orders two actions by the segment length of their records. */
  function PartialCmp(a: FileInfoParserAction, b: FileInfoParserAction, platform: Platform): (o: Option<Ordering>)
    requires Comparable(a) && Comparable(b)
    ensures o.Some?
    ensures o == Some(Less) <==> Depth(a, platform) < Depth(b, platform)
    ensures o == Some(Greater) <==> Depth(a, platform) > Depth(b, platform)
  {
    var selfSegLen := Depth(a, platform);
    var otherSegLen := Depth(b, platform);
    if selfSegLen > otherSegLen then Some(Greater)
    else if selfSegLen < otherSegLen then Some(Less)
    else if selfSegLen == otherSegLen then Some(Equal)
    else None
  }

  /** An action whose record the parser built: its segment holds names only. */
  predicate NamesOnly(a: FileInfoParserAction) {
    Comparable(a) && |OrderRecord(a).segment.value| >= 1 && AllNames(OrderRecord(a).segment.value)
  }

  /** Every parser-built action has depth 1. */
  lemma DepthIsOne(a: FileInfoParserAction, platform: Platform)
    requires NamesOnly(a)
    ensures Depth(a, platform) == 1
  {
  }

  /** So `partial_cmp` calls any two parser-built actions equal. */
  lemma PartialCmpAlwaysEqual(a: FileInfoParserAction, b: FileInfoParserAction, platform: Platform)
    requires NamesOnly(a) && NamesOnly(b)
    ensures PartialCmp(a, b, platform) == Some(Equal)
  {
    DepthIsOne(a, platform);
    DepthIsOne(b, platform);
  }

  /** The action can have its destination computed without a panic. */
  predicate HasSourceSegment(a: FileInfoParserAction) {
    a.source.Some? && a.source.value.segment.Some?
  }

  /**
    `get_destination_from_segment`: the target root followed by the source
    record's relative suffix, rendered with the platform separator.
   */
  function DestinationFromSegment(a: FileInfoParserAction, targetDirectory: string, platform: Platform): (dst: string)
    requires HasSourceSegment(a)
    ensures var suffix := a.source.value.segment.value;
      |suffix| >= 1 && AllNames(suffix) ==>
        dst == Join(NormalizedSplitter(targetDirectory) + suffix, PlatformSeparator(platform))
  {
    var suffix := a.source.value.segment.value;
    var segmentString := DefaultSegmentString(suffix, platform);
    var pp := AppendSegment(Parse(targetDirectory), segmentString, platform);
    if |suffix| >= 1 && AllNames(suffix) then
      ParseJoin(suffix, PlatformSeparator(platform));
      DefaultSegmentString(pp.segment.value, platform)
    else
      DefaultSegmentString(pp.segment.value, platform)
  }

  /**
    Parsing a destination gives the target root's names followed by the
    relative suffix: the destination sits under the target root at the
    same relative place as the source sits under the source root.
   */
  lemma DestinationUnderTarget(a: FileInfoParserAction, targetDirectory: string, platform: Platform)
    requires HasSourceSegment(a)
    requires |a.source.value.segment.value| >= 1 && AllNames(a.source.value.segment.value)
    ensures NormalizedSplitter(DestinationFromSegment(a, targetDirectory, platform))
      == NormalizedSplitter(targetDirectory) + a.source.value.segment.value
  {
    var names := NormalizedSplitter(targetDirectory) + a.source.value.segment.value;
    assert AllNames(names);
    ParseJoin(names, PlatformSeparator(platform));
  }

  /** `FileInfoParserActionList`: the actions for one source and target root. */
  datatype FileInfoParserActionList = FileInfoParserActionList(
    sourceDirectory: string,
    targetDirectory: string,
    actions: seq<FileInfoParserAction>)
}
