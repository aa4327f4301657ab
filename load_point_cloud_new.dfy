/**
 * The index and list helpers of the point-cloud loader: the scan of a
 * capture directory listing for "frame_<index>_depth.npy" files, the
 * --frames selection ("all", "a:b", or a comma list), and its variant of
 * the cloud merge.
 *
 * The directory listing is a parameter; ints are Python's unbounded ints.
 */
module LoadPointCloudNew {
  import opened Wrappers
  import opened Text
  import opened PyText
  import C = Clouds

  // ---------------------------------------------------------------------
  // sorted()
  // ---------------------------------------------------------------------

  predicate Sorted(xs: seq<int>) {
    forall i, j :: 0 <= i < j < |xs| ==> xs[i] <= xs[j]
  }

  /** x placed before the first element it does not exceed. */
  function Insert(x: int, xs: seq<int>): (r: seq<int>)
    ensures multiset(r) == multiset(xs) + multiset{x}
    ensures forall y :: y in r <==> y == x || y in xs
  {
    if xs == [] then [x]
    else if x <= xs[0] then [x] + xs
    else
      assert xs == [xs[0]] + xs[1..];
      [xs[0]] + Insert(x, xs[1..])
  }

  /** A head no larger than anything in an ascending tail keeps the list ascending. */
  lemma SortedCons(h: int, t: seq<int>)
    requires Sorted(t) && forall y :: y in t ==> h <= y
    ensures Sorted([h] + t)
  {
    var r := [h] + t;
    forall i, j | 0 <= i < j < |r|
      ensures r[i] <= r[j]
    {
      assert r[j] == t[j - 1] && t[j - 1] in t;
      if i > 0 {
        assert r[i] == t[i - 1];
      }
    }
  }

  lemma {:induction false} InsertSorted(x: int, xs: seq<int>)
    requires Sorted(xs)
    ensures Sorted(Insert(x, xs))
    decreases |xs|
  {
    if xs == [] {
    } else if x <= xs[0] {
      assert forall y :: y in xs ==> x <= y;
      SortedCons(x, xs);
    } else {
      assert Sorted(xs[1..]);
      InsertSorted(x, xs[1..]);
      SortedCons(xs[0], Insert(x, xs[1..]));
    }
  }

  /** sorted(xs) on ints: ascending, the same elements with the same counts. */
  function Sort(xs: seq<int>): (r: seq<int>)
    ensures Sorted(r) && multiset(r) == multiset(xs)
  {
    if xs == [] then []
    else
      assert xs == [xs[0]] + xs[1..];
      InsertSorted(xs[0], Sort(xs[1..]));
      Insert(xs[0], Sort(xs[1..]))
  }

  /** The head of an ascending list is its least element. */
  lemma HeadIsLeast(s: seq<int>, y: int)
    requires Sorted(s) && y in s
    ensures s[0] <= y
  {
    var k :| 0 <= k < |s| && s[k] == y;
    if k > 0 {
      assert s[0] <= s[k];
    }
  }

  /** Dropping the head of a non-empty list drops one copy of it, and keeps the rest ascending. */
  lemma DropHead(s: seq<int>)
    requires s != []
    ensures multiset(s[1..]) == multiset(s) - multiset{s[0]}
    ensures Sorted(s) ==> Sorted(s[1..])
  {
    assert s == [s[0]] + s[1..];
  }

  /** Two ascending lists with the same elements start alike. */
  lemma SameHead(a: seq<int>, b: seq<int>)
    requires Sorted(a) && Sorted(b) && multiset(a) == multiset(b) && a != []
    ensures b != [] && a[0] == b[0]
  {
    assert a[0] in multiset(b);
    assert b[0] in multiset(a);
    HeadIsLeast(a, b[0]);
    HeadIsLeast(b, a[0]);
  }

  /** Two ascending lists with the same elements are equal: sorted() has one possible result. */
  lemma {:induction false} SortedUnique(a: seq<int>, b: seq<int>)
    requires Sorted(a) && Sorted(b) && multiset(a) == multiset(b)
    ensures a == b
    decreases |a|
  {
    if a == [] {
      assert |b| == |multiset(b)| == 0;
    } else {
      SameHead(a, b);
      DropHead(a);
      DropHead(b);
      SortedUnique(a[1..], b[1..]);
      assert a == [a[0]] + a[1..] && b == [b[0]] + b[1..];
    }
  }

  // ---------------------------------------------------------------------
  // build_npy_frame_list
  // ---------------------------------------------------------------------

  /** The exception a directory without depth files raises. */
  datatype ScanError = FileNotFoundError(dataDir: string)

  /** The file-name filter: "frame_" ... "_depth.npy". */
  predicate IsDepthName(f: string) {
    StartsWith(f, "frame_") && EndsWith(f, "_depth.npy")
  }

  /** The names of the listing that pass the filter, in listing order. */
  function DepthNames(listing: seq<string>): (names: seq<string>)
    ensures |names| <= |listing|
    ensures forall f :: f in names <==> f in listing && IsDepthName(f)
  {
    if listing == [] then []
    else
      var rest := DepthNames(listing[1..]);
      assert forall f :: f in listing <==> f == listing[0] || f in listing[1..];
      if IsDepthName(listing[0]) then [listing[0]] + rest else rest
  }

  /**
   * int(f.split('_')[1]): None when the name has no second field
   * (IndexError) or the field is not an int literal (ValueError); both are
   * caught and the name is skipped.
   */
  function FrameIndexOf(f: string): Option<int> {
    var parts := Split(f, '_');
    if |parts| < 2 then None else ParseInt(parts[1])
  }

  /** The values of the present entries, in order. */
  function Somes(opts: seq<Option<int>>): (xs: seq<int>)
    ensures |xs| <= |opts|
  {
    if opts == [] then []
    else
      var last := opts[|opts| - 1];
      Somes(opts[..|opts| - 1]) + if last.Some? then [last.value] else []
  }

  /** The parse of every name, in order. */
  function Parses(names: seq<string>): (opts: seq<Option<int>>)
    ensures |opts| == |names|
  {
    seq(|names|, i requires 0 <= i < |names| => FrameIndexOf(names[i]))
  }

  /** The indices of the names that parse, in order. */
  function ParsedIndices(names: seq<string>): (idx: seq<int>)
    ensures |idx| <= |names|
  {
    Somes(Parses(names))
  }

  lemma SomesPrefix(opts: seq<Option<int>>, i: nat)
    requires i < |opts|
    ensures Somes(opts[..i + 1]) == Somes(opts[..i]) + if opts[i].Some? then [opts[i].value] else []
  {
    assert opts[..i + 1][..i] == opts[..i];
  }

  /** The loop body: parse one name and append its index if it has one. */
  method AppendIndex(frameIndices: seq<int>, f: string) returns (next: seq<int>)
    ensures next == frameIndices + if FrameIndexOf(f).Some? then [FrameIndexOf(f).value] else []
  {
    next := frameIndices;
    var parts := Split(f, '_');
    if |parts| < 2 {
      return;
    }
    var idx := ParseInt(parts[1]);
    if idx.Some? {
      next := frameIndices + [idx.value];
    }
  }

  /**
   * build_npy_frame_list: no matching name raises FileNotFoundError;
   * otherwise the indices of the matching names that parse, ascending. The
   * script sorts the names first; that only orders the loop, whose result
   * is sorted again, so the names are taken in listing order here.
   */
  method BuildNpyFrameList(dataDir: string, listing: seq<string>) returns (r: Result<seq<int>, ScanError>)
    ensures r.Failure? <==> DepthNames(listing) == []
    ensures r.Failure? ==> r.error == FileNotFoundError(dataDir)
    ensures r.Success? ==> Sorted(r.value) && multiset(r.value) == multiset(ParsedIndices(DepthNames(listing)))
  {
    var npyFiles := DepthNames(listing);
    if npyFiles == [] {
      return Failure(FileNotFoundError(dataDir));
    }
    ghost var opts := Parses(npyFiles);
    var frameIndices: seq<int> := [];
    for i := 0 to |npyFiles|
      invariant frameIndices == Somes(opts[..i])
    {
      SomesPrefix(opts, i);
      assert opts[i] == FrameIndexOf(npyFiles[i]);
      frameIndices := AppendIndex(frameIndices, npyFiles[i]);
    }
    assert opts[..|npyFiles|] == opts;
    r := Success(Sort(frameIndices));
  }

  /** f"frame_{frame_idx:06d}_depth.npy": the depth file name of a frame. */
  function DepthNpyName(n: nat): string {
    "frame" + "_" + ZeroPad(NatToDec(n), 6) + "_" + "depth.npy"
  }

  /** A depth file named from index n passes the filter. */
  lemma DepthNpyNameIsDepthName(n: nat)
    ensures IsDepthName(DepthNpyName(n))
  {
    var digits := ZeroPad(NatToDec(n), 6);
    var name := DepthNpyName(n);
    assert name == "frame_" + (digits + "_depth.npy");
    assert name[..6] == "frame_";
    assert name == ("frame_" + digits) + "_depth.npy";
    assert name[|name| - 10..] == "_depth.npy";
  }

  /** The second '_'-field of a depth file named from index n is read back as n. */
  lemma DepthNpyNameIndex(n: nat)
    ensures FrameIndexOf(DepthNpyName(n)) == Some(n)
  {
    var digits := ZeroPad(NatToDec(n), 6);
    ZeroPadShape(NatToDec(n), 6);
    assert forall k :: 0 <= k < |digits| ==> digits[k] != '_';
    var pre, post := "frame", "depth.npy";
    assert '_' !in pre && '_' !in post;
    assert DepthNpyName(n) == pre + ['_'] + digits + ['_'] + post;
    SplitThree(pre, digits, post, '_');
    ParseIntOfZeroPadded(n, 6);
  }

  /** Names for a list of indices, as the exporter writes them. */
  function DepthNpyNames(ns: seq<nat>): (names: seq<string>)
    ensures |names| == |ns| && forall i :: 0 <= i < |ns| ==> names[i] == DepthNpyName(ns[i])
  {
    seq(|ns|, i requires 0 <= i < |ns| => DepthNpyName(ns[i]))
  }

  /** The filter keeps a listing whose every name passes it. */
  lemma {:induction false} DepthNamesAll(names: seq<string>)
    requires forall i :: 0 <= i < |names| ==> IsDepthName(names[i])
    ensures DepthNames(names) == names
    decreases |names|
  {
    if names != [] {
      DepthNamesAll(names[1..]);
      assert names == [names[0]] + names[1..];
    }
  }

  /** Entries that are all present give their values, in order. */
  lemma {:induction false} SomesAll(opts: seq<Option<int>>, ns: seq<int>)
    requires |opts| == |ns|
    requires forall i :: 0 <= i < |opts| ==> opts[i] == Some(ns[i])
    ensures Somes(opts) == ns
    decreases |opts|
  {
    if opts != [] {
      var last := |opts| - 1;
      SomesAll(opts[..last], ns[..last]);
      assert ns == ns[..last] + [ns[last]];
    }
  }

  /** Scanning a listing of exported depth files recovers exactly their indices. */
  lemma ScanRecoversIndices(ns: seq<nat>)
    ensures ParsedIndices(DepthNames(DepthNpyNames(ns))) == ns
  {
    var names := DepthNpyNames(ns);
    var opts := Parses(names);
    forall i | 0 <= i < |names|
      ensures IsDepthName(names[i]) && opts[i] == Some(ns[i])
    {
      DepthNpyNameIsDepthName(ns[i]);
      DepthNpyNameIndex(ns[i]);
    }
    DepthNamesAll(names);
    SomesAll(opts, ns);
  }

  /**
   * Any result the scan can give for a listing of exported depth files
   * written in ascending index order is that list of indices.
   */
  lemma ScanOfExported(ns: seq<nat>, frames: seq<int>)
    requires Sorted(ns)
    requires Sorted(frames) && multiset(frames) == multiset(ParsedIndices(DepthNames(DepthNpyNames(ns))))
    ensures frames == ns
  {
    ScanRecoversIndices(ns);
    SortedUnique(frames, ns);
  }

  // ---------------------------------------------------------------------
  // --frames selection
  // ---------------------------------------------------------------------

  /** [i for i in xs if i in wanted]. */
  function Keep(xs: seq<int>, wanted: Wish): (r: seq<int>)
    ensures |r| <= |xs|
    ensures forall y :: y in r ==> y in xs && Wants(wanted, y)
  {
    if xs == [] then []
    else
      var rest := Keep(xs[..|xs| - 1], wanted);
      if Wants(wanted, xs[|xs| - 1]) then rest + [xs[|xs| - 1]] else rest
  }

  /** Keep keeps every wanted occurrence and nothing else. */
  lemma {:induction false} KeepCounts(xs: seq<int>, wanted: Wish)
    ensures forall x :: multiset(Keep(xs, wanted))[x] == if Wants(wanted, x) then multiset(xs)[x] else 0
    decreases |xs|
  {
    if xs != [] {
      var init := xs[..|xs| - 1];
      KeepCounts(init, wanted);
      assert xs == init + [xs[|xs| - 1]];
      assert multiset(xs) == multiset(init) + multiset{xs[|xs| - 1]};
    }
  }

  /** What Keep selects is part of what it was given, and keeps its order. */
  lemma KeepPart(xs: seq<int>, wanted: Wish)
    ensures multiset(Keep(xs, wanted)) <= multiset(xs)
    ensures Sorted(xs) ==> Sorted(Keep(xs, wanted))
  {
    KeepCounts(xs, wanted);
    forall x
      ensures multiset(Keep(xs, wanted))[x] <= multiset(xs)[x]
    {
    }
    if Sorted(xs) {
      KeepSorted(xs, wanted);
    }
  }

  /** A last element no smaller than anything in an ascending list keeps it ascending. */
  lemma SortedSnoc(t: seq<int>, x: int)
    requires Sorted(t) && forall y :: y in t ==> y <= x
    ensures Sorted(t + [x])
  {
    var r := t + [x];
    forall i, j | 0 <= i < j < |r|
      ensures r[i] <= r[j]
    {
      assert r[i] == t[i] && t[i] in t;
      if j < |t| {
        assert r[j] == t[j];
      }
    }
  }

  /** Keep keeps the order: an ascending list stays ascending. */
  lemma {:induction false} KeepSorted(xs: seq<int>, wanted: Wish)
    requires Sorted(xs)
    ensures Sorted(Keep(xs, wanted))
    decreases |xs|
  {
    if xs != [] {
      var init := xs[..|xs| - 1];
      var last := xs[|xs| - 1];
      assert Sorted(init);
      KeepSorted(init, wanted);
      if Wants(wanted, last) {
        var rest := Keep(init, wanted);
        forall y | y in rest
          ensures y <= last
        {
          var k :| 0 <= k < |init| && init[k] == y;
          assert xs[k] == y;
        }
        SortedSnoc(rest, last);
      }
    }
  }

  /** Keep keeps exactly the wanted elements. */
  lemma KeepMembers(xs: seq<int>, wanted: Wish)
    ensures forall x :: x in Keep(xs, wanted) <==> x in xs && Wants(wanted, x)
  {
    KeepCounts(xs, wanted);
    forall x | x in xs && Wants(wanted, x)
      ensures x in Keep(xs, wanted)
    {
      assert x in multiset(xs);
      assert x in multiset(Keep(xs, wanted));
    }
  }

  /** Which indices a selection wants: a half-open range, or a set of listed indices. */
  datatype Wish = Range(start: int, end: int) | Listed(indices: set<int>)

  predicate Wants(w: Wish, i: int) {
    match w
    case Range(start, end) => start <= i < end
    case Listed(indices) => i in indices
  }

  /** The tokens of a comma list that int() reads: those whose stripped form is all digits. */
  function Wanted(frames: string): set<int> {
    set x | x in Split(frames, ',') && IsDigitStr(Strip(x)) :: DecValue(Strip(x))
  }

  /**
   * The --frames selection over the available indices: "all" keeps them;
   * "a:b" keeps a <= i < b, and raises ValueError unless it is exactly two
   * int literals around one ':'; otherwise the digit-only comma-separated
   * tokens form a set and the indices in it are kept, other tokens ignored.
   */
  function SelectFrames(frames: string, available: seq<int>): (r: Result<seq<int>, C.PyError>)
    ensures frames == "all" ==> r == Success(available)
    ensures frames != "all" && ':' in frames ==>
      var parts := Split(frames, ':');
      && (r.Success? <==> |parts| == 2 && ParseInt(parts[0]).Some? && ParseInt(parts[1]).Some?)
      && (r.Failure? ==> r.error == C.ValueError)
    ensures frames != "all" && ':' !in frames ==> r.Success?
  {
    if frames == "all" then Success(available)
    else if ':' in frames then
      var parts := Split(frames, ':');
      if |parts| != 2 then Failure(C.ValueError)
      else
        var start := ParseInt(parts[0]);
        var end := ParseInt(parts[1]);
        if start.None? || end.None? then Failure(C.ValueError)
        else Success(Keep(available, Range(start.value, end.value)))
    else
      Success(Keep(available, Listed(Wanted(frames))))
  }

  /**
   * What each selection keeps: for "a:b" every occurrence of an index in
   * [a, b) and nothing else, for a comma list every occurrence of a listed
   * index; the order of the available indices is kept, so a sorted list
   * gives a sorted selection.
   */
  lemma SelectFramesContents(frames: string, available: seq<int>)
    ensures var r := SelectFrames(frames, available);
      r.Success? ==> (Sorted(available) ==> Sorted(r.value)) && multiset(r.value) <= multiset(available)
    ensures frames != "all" && ':' in frames && SelectFrames(frames, available).Success? ==>
      var parts := Split(frames, ':');
      var a := ParseInt(parts[0]).value;
      var b := ParseInt(parts[1]).value;
      forall x :: multiset(SelectFrames(frames, available).value)[x] == if a <= x < b then multiset(available)[x] else 0
    ensures frames != "all" && ':' !in frames ==>
      forall x :: multiset(SelectFrames(frames, available).value)[x] == if x in Wanted(frames) then multiset(available)[x] else 0
  {
    var r := SelectFrames(frames, available);
    if frames != "all" && r.Success? {
      var w;
      if ':' in frames {
        var parts := Split(frames, ':');
        w := Range(ParseInt(parts[0]).value, ParseInt(parts[1]).value);
      } else {
        w := Listed(Wanted(frames));
      }
      assert r.value == Keep(available, w);
      KeepCounts(available, w);
      KeepPart(available, w);
    }
  }

  /** A comma-list token is wanted exactly when it is all digits once stripped; int() then reads its decimal value. */
  lemma WantedTokens(frames: string, x: string)
    requires x in Split(frames, ',') && IsDigitStr(Strip(x))
    ensures DecValue(Strip(x)) in Wanted(frames)
    ensures ParseInt(Strip(x)) == Some(DecValue(Strip(x)))
  {
    ParseIntOfDigits(Strip(x));
  }

  // ---------------------------------------------------------------------
  // merge_clouds_world_points
  // ---------------------------------------------------------------------

  /**
   * merge_clouds_world_points of the loader: a dict is returned as it is,
   * an empty list gives None, any other list is merged (a missing world
   * points array raises KeyError, arrays of differing widths ValueError).
   */
  method MergeCloudsWorldPoints(clouds: C.CloudsArg) returns (r: Result<Option<C.Cloud>, C.PyError>)
    ensures clouds.Dict? ==> r == Success(Some(clouds.cloud))
    ensures clouds.List? && clouds.clouds == [] ==> r == Success(None)
    ensures clouds.List? && clouds.clouds != [] && !C.AllHave(clouds.clouds, C.WorldPoints) ==>
      r == Failure(C.KeyError(C.WorldPoints))
    ensures (clouds.List? && clouds.clouds != [] && C.AllHave(clouds.clouds, C.WorldPoints) &&
             !C.MergeWidthsOk(clouds.clouds)) ==> r == Failure(C.ValueError)
    ensures (clouds.List? && clouds.clouds != [] && C.AllHave(clouds.clouds, C.WorldPoints) &&
             C.MergeWidthsOk(clouds.clouds)) ==> r == Success(Some(C.MergedCloud(clouds.clouds)))
  {
    if clouds.Dict? {
      return Success(Some(clouds.cloud));
    }
    if |clouds.clouds| == 0 {
      return Success(None);
    }
    var merged := C.MergeList(clouds.clouds);
    if merged.Failure? {
      return Failure(merged.error);
    }
    r := Success(Some(merged.value));
  }
}
