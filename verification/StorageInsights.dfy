/** Storage insights (server/src/handlers/storage.rs): one walk that fills several breakdowns
    and keeps the five largest files. */
module StorageInsights {
  import opened Prelude
  import opened Text
  import opened Paths
  import opened StagingNames
  import opened FileTree
  import opened StorageStats
  import opened Sums

  datatype Stat = Stat(bytes: nat, count: nat)

  datatype LargestFile = LargestFile(path: RelPath, size: nat, modified: Option<nat>)

  // ------------------------------------------------------------- breakdowns

  function LowerAscii(s: string): string {
    seq(|s|, i requires 0 <= i < |s| => LowerChar(s[i]))
  }

  /** `Path::extension`: what follows the last dot, unless that dot starts the name. */
  function Extension(name: string): string {
    var cut := RSplitOnce(name, ".");
    if cut.None? || cut.value.0 == "" then "" else cut.value.1
  }

  function StorageTypeIndex(name: string): (i: nat)
    ensures i < 6
  {
    TypeOfExtension(LowerAscii(Extension(name)))
  }

  function TypeOfExtension(extension: string): (i: nat)
    ensures i < 6
  {
    if extension in ["jpg", "jpeg", "png", "gif", "webp", "heic", "heif", "avif", "bmp", "tif", "tiff", "svg"] then 0
    else if extension in ["mp4", "mov", "m4v", "mkv", "webm", "avi", "3gp", "mpeg", "mpg", "ts"] then 1
    else if extension in ["mp3", "m4a", "aac", "wav", "flac", "ogg", "opus", "wma", "aiff"] then 2
    else if extension in ["pdf", "doc", "docx", "xls", "xlsx", "ppt", "pptx", "txt", "md", "rtf", "csv",
                          "epub", "odt", "ods", "odp"] then 3
    else if extension in ["zip", "7z", "rar", "tar", "gz", "bz2", "xz", "tgz"] then 4
    else 5
  }

  /** The extension is what follows the last dot of a name that does not start with it. */
  lemma ExtensionOf(stem: string, ext: string)
    requires stem != "" && '.' !in ext
    ensures Extension(stem + "." + ext) == ext
  {
    var name := stem + "." + ext;
    assert OccursAt(name, ".", |stem|);
    var cut := RSplitOnce(name, ".").value;
    forall i | |stem| < i <= |name| ensures !OccursAt(name, ".", i) {
      assert i < |name| ==> name[i] == ext[i - |stem| - 1];
    }
    assert cut.0 == stem && cut.1 == ext;
  }

  lemma NoExtension(name: string)
    requires '.' !in name[Min(1, |name|)..]
    ensures Extension(name) == ""
  {
    forall i | 0 < i <= |name| ensures !OccursAt(name, ".", i) {
      assert i < |name| ==> name[i] == name[1..][i - 1];
    }
  }

  lemma SameLowered(a: string, b: string)
    requires SameLetters(a, b)
    ensures LowerAscii(a) == LowerAscii(b) && ('.' in a <==> '.' in b)
  {
    forall i | 0 <= i < |a| ensures a[i] == '.' <==> b[i] == '.' {
      assert LowerChar(a[i]) == LowerChar(b[i]);
    }
  }

  /** Only the letters of the extension decide, in either case. */
  lemma TypeFollowsExtension(stem: string, ext: string, other: string, ext': string)
    requires stem != "" && other != "" && '.' !in ext && SameLetters(ext, ext')
    ensures StorageTypeIndex(stem + "." + ext) == StorageTypeIndex(other + "." + ext')
  {
    SameLowered(ext, ext');
    ExtensionOf(stem, ext);
    ExtensionOf(other, ext');
  }

  lemma EmptyIsOther(name: string)
    requires Extension(name) == ""
    ensures StorageTypeIndex(name) == 5
  {
    assert LowerAscii("") == "";
  }

  /** A name without extension is of the last type, a hidden one too. */
  lemma PlainNamesAreOther(name: string)
    requires '.' !in name
    ensures StorageTypeIndex(name) == StorageTypeIndex("." + name) == 5
  {
    NoExtension(name);
    EmptyIsOther(name);
    assert ("." + name)[1..] == name;
    NoExtension("." + name);
    EmptyIsOther("." + name);
  }

  function SizeBandIndex(size: nat): (i: nat)
    ensures i < 4
  {
    if size < 1_048_576 then 0 else if size < 10_485_760 then 1 else if size < 104_857_600 then 2 else 3
  }

  /** Larger files are in higher bands, which begin at 1, 10 and 100 MiB. */
  lemma BandsAreOrdered(a: nat, b: nat)
    ensures a <= b ==> SizeBandIndex(a) <= SizeBandIndex(b)
    ensures SizeBandIndex(a) >= 1 <==> a >= 1024 * 1024
    ensures SizeBandIndex(a) >= 2 <==> a >= 10 * 1024 * 1024
    ensures SizeBandIndex(a) >= 3 <==> a >= 100 * 1024 * 1024
  {
  }

  const SECONDS_PER_DAY: nat := 86_400

  /** How a file is classified by one breakdown; an index outside the breakdown means it is not counted there. */
  type Classifier = RelPath -> int

  function TypeOf(): Classifier {
    (p: RelPath) => if p == [] then 5 else StorageTypeIndex(Name(p))
  }

  function BandOf(tree: Tree): Classifier {
    (p: RelPath) => SizeBandIndex(Length(tree, p))
  }

  function DayOf(tree: Tree, firstDay: int): Classifier {
    (p: RelPath) =>
      if p in tree && tree[p].File? && tree[p].modified.Some? then tree[p].modified.value / SECONDS_PER_DAY - firstDay else -1
  }

  /** A file is in the bucket of the day, counted from the first, on which it was modified; without a time it is in none. */
  lemma DayBuckets(tree: Tree, firstDay: int, p: RelPath, i: nat)
    requires p in tree && tree[p].File?
    ensures var day := 24 * 60 * 60;
            DayOf(tree, firstDay)(p) == i <==>
            && tree[p].modified.Some?
            && (firstDay + i) * day <= tree[p].modified.value < (firstDay + i) * day + day
  {
    if tree[p].modified.Some? {
      Quotient(tree[p].modified.value, firstDay + i);
    }
  }

  lemma Quotient(time: nat, day: int)
    ensures time / SECONDS_PER_DAY == day <==> day * 86_400 <= time < day * 86_400 + 86_400
  {
  }

  /** The three classifications of an insights walk. */
  datatype Breakdown = Breakdown(types: Classifier, days: Classifier, bands: Classifier)

  function Standard(tree: Tree, firstDay: int): Breakdown {
    Breakdown(TypeOf(), DayOf(tree, firstDay), BandOf(tree))
  }

  /** Types and size bands leave no file out. */
  ghost predicate Exhaustive(views: Breakdown) {
    forall p :: 0 <= views.types(p) < 6 && 0 <= views.bands(p) < 4
  }

  lemma StandardIsExhaustive(tree: Tree, firstDay: int)
    ensures Exhaustive(Standard(tree, firstDay))
  {
  }

  function ClassOf(files: set<RelPath>, classify: Classifier, i: int): set<RelPath> {
    set p | p in files && classify(p) == i
  }

  /** Each bucket holds the size and number of exactly the files of its class. */
  ghost predicate BucketsOk(tree: Tree, files: set<RelPath>, classify: Classifier, buckets: seq<Stat>) {
    forall i :: 0 <= i < |buckets| ==> BucketOk(tree, ClassOf(files, classify, i), buckets[i])
  }

  ghost predicate BucketOk(tree: Tree, files: set<RelPath>, bucket: Stat) {
    bucket.bytes == Min(TotalOf(tree, files), U64_MAX) && bucket.count == Min(|files|, U64_MAX)
  }

  function Bump(buckets: seq<Stat>, i: int, size: nat): seq<Stat> {
    if 0 <= i < |buckets| then
      buckets[i := Stat(SaturatingAdd(buckets[i].bytes, size), SaturatingAdd(buckets[i].count, 1))]
    else buckets
  }

  lemma BumpKeeps(tree: Tree, files: set<RelPath>, classify: Classifier, buckets: seq<Stat>, p: RelPath)
    requires p !in files && BucketsOk(tree, files, classify, buckets)
    ensures BucketsOk(tree, files + {p}, classify, Bump(buckets, classify(p), Length(tree, p)))
  {
    var after := Bump(buckets, classify(p), Length(tree, p));
    forall i | 0 <= i < |after| ensures BucketOk(tree, ClassOf(files + {p}, classify, i), after[i]) {
      var group := ClassOf(files, classify, i);
      assert BucketOk(tree, group, buckets[i]);
      if i == classify(p) {
        assert ClassOf(files + {p}, classify, i) == group + {p};
        TotalPlusOne(tree, group, p);
      } else {
        assert ClassOf(files + {p}, classify, i) == group;
      }
    }
  }

  function BytesIn(buckets: seq<Stat>): nat {
    if buckets == [] then 0 else BytesIn(buckets[..|buckets| - 1]) + buckets[|buckets| - 1].bytes
  }

  function CountIn(buckets: seq<Stat>): nat {
    if buckets == [] then 0 else CountIn(buckets[..|buckets| - 1]) + buckets[|buckets| - 1].count
  }

  function ClassesBelow(files: set<RelPath>, classify: Classifier, n: int): set<RelPath> {
    set p | p in files && 0 <= classify(p) < n
  }

  lemma TotalOfUnion(tree: Tree, a: set<RelPath>, b: set<RelPath>)
    requires a !! b
    ensures TotalOf(tree, a + b) == TotalOf(tree, a) + TotalOf(tree, b)
    ensures |a + b| == |a| + |b|
  {
    SumDisjoint(LengthsOf(tree, a + b), LengthsOf(tree, a), LengthsOf(tree, b));
  }

  lemma TotalMonotone(tree: Tree, a: set<RelPath>, b: set<RelPath>)
    requires a <= b
    ensures TotalOf(tree, a) <= TotalOf(tree, b)
  {
    SumMonotone(LengthsOf(tree, a), LengthsOf(tree, b));
  }

  lemma CardinalityMonotone(a: set<RelPath>, b: set<RelPath>)
    requires a <= b
    ensures |a| <= |b|
  {
    assert b == a + (b - a);
  }

  /** The buckets together hold exactly the files whose class is one of theirs. */
  lemma {:induction false} BucketsConserve(tree: Tree, files: set<RelPath>, classify: Classifier, buckets: seq<Stat>)
    requires BucketsOk(tree, files, classify, buckets)
    requires TotalOf(tree, files) <= U64_MAX && |files| <= U64_MAX
    ensures BytesIn(buckets) == TotalOf(tree, ClassesBelow(files, classify, |buckets|))
    ensures CountIn(buckets) == |ClassesBelow(files, classify, |buckets|)|
    decreases |buckets|
  {
    var n := |buckets|;
    if n == 0 {
      assert ClassesBelow(files, classify, 0) == {};
      assert LengthsOf(tree, {}) == map[];
    } else {
      BucketsConserve(tree, files, classify, buckets[..n - 1]);
      var below, group := ClassesBelow(files, classify, n - 1), ClassOf(files, classify, n - 1);
      assert ClassesBelow(files, classify, n) == below + group;
      TotalOfUnion(tree, below, group);
      TotalMonotone(tree, group, files);
      CardinalityMonotone(group, files);
      assert BucketOk(tree, group, buckets[n - 1]);
    }
  }

  /** A classification that leaves no file out adds up to all of them. */
  lemma BreakdownConserves(tree: Tree, files: set<RelPath>, classify: Classifier, buckets: seq<Stat>)
    requires BucketsOk(tree, files, classify, buckets)
    requires forall p :: p in files ==> 0 <= classify(p) < |buckets|
    requires TotalOf(tree, files) <= U64_MAX && |files| <= U64_MAX
    ensures BytesIn(buckets) == TotalOf(tree, files) && CountIn(buckets) == |files|
  {
    BucketsConserve(tree, files, classify, buckets);
    assert ClassesBelow(files, classify, |buckets|) == files;
  }

  // ------------------------------------------------------- the largest files

  const TOP: nat := 5

  function PathsOf(top: seq<LargestFile>): set<RelPath> {
    set i | 0 <= i < |top| :: top[i].path
  }

  function NonEmpty(tree: Tree, files: set<RelPath>): set<RelPath> {
    set p | p in files && Length(tree, p) > 0
  }

  predicate Describes(tree: Tree, f: LargestFile) {
    f.path in tree && tree[f.path].File? && f.size == |tree[f.path].content| && f.modified == tree[f.path].modified
  }

  /** The list names different candidates, as many as fit, and no candidate left out is larger than one kept. */
  ghost predicate TopOk(tree: Tree, candidates: set<RelPath>, top: seq<LargestFile>) {
    Listed(tree, candidates, top) && |top| == Min(TOP, |candidates|) && NothingLarger(tree, candidates, top)
  }

  ghost predicate Listed(tree: Tree, candidates: set<RelPath>, top: seq<LargestFile>) {
    && (forall i :: 0 <= i < |top| ==> Describes(tree, top[i]) && top[i].path in candidates)
    && (forall i, j :: 0 <= i < j < |top| ==> top[i].path != top[j].path)
  }

  predicate LeftOut(top: seq<LargestFile>, p: RelPath) {
    forall j :: 0 <= j < |top| ==> top[j].path != p
  }

  ghost predicate NothingLarger(tree: Tree, candidates: set<RelPath>, top: seq<LargestFile>) {
    forall p, i :: p in candidates && LeftOut(top, p) && 0 <= i < |top| ==> Length(tree, p) <= top[i].size
  }

  /** The first index of a smallest entry, as `min_by_key` finds it. */
  method SmallestIndex(top: seq<LargestFile>) returns (k: nat)
    requires top != []
    ensures k < |top|
    ensures forall i :: 0 <= i < |top| ==> top[k].size <= top[i].size
    ensures forall i :: 0 <= i < k ==> top[k].size < top[i].size
  {
    k := 0;
    for i := 1 to |top|
      invariant k < i
      invariant forall j :: 0 <= j < i ==> top[k].size <= top[j].size
      invariant forall j :: 0 <= j < k ==> top[k].size < top[j].size
    {
      if top[i].size < top[k].size {
        k := i;
      }
    }
  }

  lemma PathsCount(top: seq<LargestFile>)
    requires forall i, j :: 0 <= i < j < |top| ==> top[i].path != top[j].path
    ensures |PathsOf(top)| == |top|
    decreases |top|
  {
    if top != [] {
      var init := top[..|top| - 1];
      PathsCount(init);
      assert PathsOf(top) == PathsOf(init) + {top[|top| - 1].path};
    }
  }

  lemma NonEmptyPlusOne(tree: Tree, files: set<RelPath>, p: RelPath)
    requires p !in files
    ensures NonEmpty(tree, files + {p}) == NonEmpty(tree, files) + (if Length(tree, p) > 0 then {p} else {})
    ensures |NonEmpty(tree, files + {p})| == |NonEmpty(tree, files)| + (if Length(tree, p) > 0 then 1 else 0)
  {
  }

  /** A list that is not full leaves no candidate out. */
  lemma NotFullHoldsAll(tree: Tree, candidates: set<RelPath>, top: seq<LargestFile>)
    requires TopOk(tree, candidates, top) && |top| < TOP
    ensures forall p :: p in candidates ==> !LeftOut(top, p)
  {
    PathsCount(top);
    SubsetOfSameSize(PathsOf(top), candidates);
  }

  lemma SubsetOfSameSize(a: set<RelPath>, b: set<RelPath>)
    requires a <= b && |a| == |b|
    ensures a == b
  {
    assert b == a + (b - a);
    assert |b - a| == 0;
  }

  lemma TopPushes(tree: Tree, candidates: set<RelPath>, top: seq<LargestFile>, f: LargestFile)
    requires TopOk(tree, candidates, top) && |top| < TOP && f.path !in candidates && Describes(tree, f)
    ensures TopOk(tree, candidates + {f.path}, top + [f])
  {
    NotFullHoldsAll(tree, candidates, top);
    var after := top + [f];
    assert after[|top|] == f;
    forall p | p in candidates + {f.path} ensures !LeftOut(after, p) {
      if p != f.path {
        var j :| 0 <= j < |top| && top[j].path == p;
        assert after[j].path == p;
      }
    }
  }

  lemma ReplaceStaysListed(tree: Tree, candidates: set<RelPath>, top: seq<LargestFile>, f: LargestFile, k: nat)
    requires Listed(tree, candidates, top) && f.path !in candidates && Describes(tree, f) && k < |top|
    ensures Listed(tree, candidates + {f.path}, top[k := f])
  {
  }

  lemma ReplaceKeepsLarger(tree: Tree, candidates: set<RelPath>, top: seq<LargestFile>, f: LargestFile, k: nat)
    requires NothingLarger(tree, candidates, top) && f.path !in candidates && k < |top| && f.size > top[k].size
    requires forall i :: 0 <= i < |top| ==> top[k].size <= top[i].size && Describes(tree, top[i])
    ensures NothingLarger(tree, candidates + {f.path}, top[k := f])
  {
    var after := top[k := f];
    forall p, i | p in candidates + {f.path} && LeftOut(after, p) && 0 <= i < |after|
      ensures Length(tree, p) <= after[i].size
    {
      assert after[k].path != p;
      assert Length(tree, p) <= top[k].size by {
        if p != top[k].path {
          assert forall j :: 0 <= j < |top| && j != k ==> after[j].path == top[j].path;
          assert LeftOut(top, p);
        }
      }
    }
  }

  lemma TopReplaces(tree: Tree, candidates: set<RelPath>, top: seq<LargestFile>, f: LargestFile, k: nat)
    requires TopOk(tree, candidates, top) && |top| == TOP && f.path !in candidates && Describes(tree, f)
    requires k < |top| && f.size > top[k].size
    requires forall i :: 0 <= i < |top| ==> top[k].size <= top[i].size
    ensures TopOk(tree, candidates + {f.path}, top[k := f])
  {
    ReplaceStaysListed(tree, candidates, top, f, k);
    ReplaceKeepsLarger(tree, candidates, top, f, k);
  }

  lemma TopKeeps(tree: Tree, candidates: set<RelPath>, top: seq<LargestFile>, p: RelPath)
    requires TopOk(tree, candidates, top) && p !in candidates && |top| == TOP
    requires forall i :: 0 <= i < |top| ==> Length(tree, p) <= top[i].size
    ensures TopOk(tree, candidates + {p}, top)
  {
  }

  predicate LargestFirst(top: seq<LargestFile>) {
    forall i, j :: 0 <= i < j < |top| ==> top[i].size >= top[j].size
  }

  lemma SwapKeeps(tree: Tree, candidates: set<RelPath>, top: seq<LargestFile>, k: nat)
    requires TopOk(tree, candidates, top) && k + 1 < |top|
    ensures TopOk(tree, candidates, Swap(top, k))
  {
    var after := Swap(top, k);
    assert after[k] == top[k + 1] && after[k + 1] == top[k];
    forall p | LeftOut(after, p) ensures LeftOut(top, p) {
      forall j | 0 <= j < |top| ensures top[j].path != p {
        assert top[j] == after[if j == k then k + 1 else if j == k + 1 then k else j];
      }
    }
  }

  function Swap(top: seq<LargestFile>, k: nat): seq<LargestFile>
    requires k + 1 < |top|
  {
    top[k := top[k + 1]][k + 1 := top[k]]
  }

  /** A property of lists that does not depend on their order. */
  ghost predicate SwapClosed(ok: seq<LargestFile> -> bool) {
    forall top, k: nat :: k + 1 < |top| && ok(top) ==> ok(Swap(top, k))
  }

  predicate SortedBut(top: seq<LargestFile>, n: nat, hole: nat) {
    forall a, b :: 0 <= a < b < n <= |top| && a != hole && b != hole ==> top[a].size >= top[b].size
  }

  /** The final sort, which moves each file forward past the smaller ones. */
  method SortBySize(top: seq<LargestFile>, ghost ok: seq<LargestFile> -> bool) returns (sorted: seq<LargestFile>)
    requires ok(top) && SwapClosed(ok)
    ensures ok(sorted) && LargestFirst(sorted)
  {
    sorted := top;
    for i := 0 to |top|
      invariant |sorted| == |top| && ok(sorted)
      invariant SortedBut(sorted, i, i)
    {
      var j := i;
      while j > 0 && sorted[j - 1].size < sorted[j].size
        invariant 0 <= j <= i < |sorted| == |top| && ok(sorted)
        invariant SortedBut(sorted, i + 1, j)
        invariant forall b :: j < b <= i ==> sorted[j].size >= sorted[b].size
      {
        sorted := Swap(sorted, j - 1);
        j := j - 1;
      }
    }
  }

  // ---------------------------------------------------------------- the walk

  /** The counters of one insights walk. */
  class Tally {
    var used: nat
    var count: nat
    var types: seq<Stat>
    var days: seq<Stat>
    var bands: seq<Stat>
    var largest: seq<LargestFile>

    constructor ()
      ensures fresh(this)
      ensures used == count == 0 && largest == []
      ensures types == Zeroes(6) && days == Zeroes(7) && bands == Zeroes(4)
    {
      used, count := 0, 0;
      types, days, bands := Zeroes(6), Zeroes(7), Zeroes(4);
      largest := [];
    }

    /** The counters are those of exactly these user files. */
    ghost predicate Matches(tree: Tree, views: Breakdown, files: set<RelPath>)
      reads this
    {
      && |types| == 6 && |days| == 7 && |bands| == 4
      && BucketOk(tree, files, Stat(used, count))
      && BucketsOk(tree, files, views.types, types)
      && BucketsOk(tree, files, views.days, days)
      && BucketsOk(tree, files, views.bands, bands)
      && TopOk(tree, NonEmpty(tree, files), largest)
    }

    method RecordTotals(tree: Tree, views: Breakdown, p: RelPath, size: nat, ghost files: set<RelPath>)
      requires Matches(tree, views, files) && p !in files && size == Length(tree, p)
      modifies this`used, this`count, this`types, this`days, this`bands
      ensures |types| == 6 && |days| == 7 && |bands| == 4
      ensures BucketOk(tree, files + {p}, Stat(used, count))
      ensures BucketsOk(tree, files + {p}, views.types, types)
      ensures BucketsOk(tree, files + {p}, views.days, days)
      ensures BucketsOk(tree, files + {p}, views.bands, bands)
    {
      TotalPlusOne(tree, files, p);
      BumpKeeps(tree, files, views.types, types, p);
      BumpKeeps(tree, files, views.days, days, p);
      BumpKeeps(tree, files, views.bands, bands, p);
      used := SaturatingAdd(used, size);
      count := SaturatingAdd(count, 1);
      types := Bump(types, views.types(p), size);
      bands := Bump(bands, views.bands(p), size);
      days := Bump(days, views.days(p), size);
    }

    method RecordLargest(tree: Tree, p: RelPath, size: nat, ghost files: set<RelPath>)
      requires TopOk(tree, NonEmpty(tree, files), largest)
      requires p !in files && p in tree && tree[p].File? && size == Length(tree, p)
      modifies this`largest
      ensures TopOk(tree, NonEmpty(tree, files + {p}), largest)
    {
      NonEmptyPlusOne(tree, files, p);
      if size > 0 {
        var candidate := LargestFile(p, size, tree[p].modified);
        if |largest| < TOP {
          TopPushes(tree, NonEmpty(tree, files), largest, candidate);
          largest := largest + [candidate];
        } else {
          var k := SmallestIndex(largest);
          if size > largest[k].size {
            TopReplaces(tree, NonEmpty(tree, files), largest, candidate, k);
            largest := largest[k := candidate];
          } else {
            TopKeeps(tree, NonEmpty(tree, files), largest, p);
          }
        }
      }
    }

    /** One file of the walk. */
    method Record(tree: Tree, views: Breakdown, p: RelPath, ghost files: set<RelPath>)
      requires Matches(tree, views, files) && p !in files && p in tree && tree[p].File?
      modifies this
      ensures Matches(tree, views, files + {p})
    {
      var size := |tree[p].content|;
      RecordTotals(tree, views, p, size, files);
      RecordLargest(tree, p, size, files);
    }
  }

  function Zeroes(n: nat): seq<Stat> {
    seq(n, _ => Stat(0, 0))
  }

  lemma NoBuckets(tree: Tree, classify: Classifier, n: nat)
    ensures BucketsOk(tree, {}, classify, Zeroes(n)) && BucketOk(tree, {}, Stat(0, 0))
  {
    assert LengthsOf(tree, {}) == map[];
    assert forall i: int :: ClassOf({}, classify, i) == {};
  }

  lemma NothingTallied(tally: Tally, tree: Tree, views: Breakdown)
    requires tally.used == tally.count == 0 && tally.largest == []
    requires tally.types == Zeroes(6) && tally.days == Zeroes(7) && tally.bands == Zeroes(4)
    ensures tally.Matches(tree, views, {})
  {
    NoBuckets(tree, views.types, 6);
    NoBuckets(tree, views.days, 7);
    NoBuckets(tree, views.bands, 4);
    assert NonEmpty(tree, {}) == {};
  }

  ghost function CountedSeen(tree: Tree, root: RelPath, read: set<RelPath>, pending: set<RelPath>): set<RelPath> {
    CountedIn(tree, Seen(tree, root, EVERYTHING, read, pending))
  }

  lemma InsightTakes(tree: Tree, root: RelPath, stack: seq<RelPath>, read: set<RelPath>, pending: set<RelPath>, p: RelPath)
    requires Walking(tree, root, EVERYTHING, stack, read, pending) && p in pending
    ensures Walking(tree, root, EVERYTHING, if tree[p].Folder? then stack + [p] else stack, read, pending - {p})
    ensures CountedSeen(tree, root, read, pending - {p})
         == CountedSeen(tree, root, read, pending) + (if Counts(tree, p) then {p} else {})
    ensures p !in CountedSeen(tree, root, read, pending)
  {
    WalkTakes(tree, root, EVERYTHING, stack, read, pending, p);
    assert EVERYTHING(p);
    CountedPlusOne(tree, Seen(tree, root, EVERYTHING, read, pending), p);
  }

  lemma InsightPops(tree: Tree, root: RelPath, stack: seq<RelPath>, read: set<RelPath>)
    requires Walking(tree, root, EVERYTHING, stack, read, {}) && stack != []
    ensures var d := stack[|stack| - 1];
            && Walking(tree, root, EVERYTHING, stack[..|stack| - 1], read + {d}, Entries(tree, d))
            && CountedSeen(tree, root, read + {d}, Entries(tree, d)) == CountedSeen(tree, root, read, {})
            && |ToReadSet(tree, root, EVERYTHING) - (read + {d})| < |ToReadSet(tree, root, EVERYTHING) - read|
  {
    WalkPops(tree, root, EVERYTHING, stack, read);
    PopSeesNothing(tree, root, EVERYTHING, stack, read, stack[|stack| - 1]);
    WalkProgress(tree, root, EVERYTHING, read, stack[|stack| - 1]);
  }

  lemma InsightStarts(tree: Tree, root: RelPath)
    requires root in tree && tree[root].Folder?
    ensures Walking(tree, root, EVERYTHING, [root], {}, {}) && CountedSeen(tree, root, {}, {}) == {}
  {
    WalkStarts(tree, root, EVERYTHING);
  }

  lemma InsightEnds(tree: Tree, root: RelPath, read: set<RelPath>)
    requires WellFormed(tree) && Walking(tree, root, EVERYTHING, [], read, {})
    ensures CountedSeen(tree, root, read, {}) == FilesUnder(tree, root)
  {
    WalkEnds(tree, root, EVERYTHING, read);
  }

  /** One entry of the walk. */
  method RecordEntry(tree: Tree, root: RelPath, views: Breakdown, tally: Tally, entry: RelPath,
                     ghost stack: seq<RelPath>, ghost read: set<RelPath>, ghost pending: set<RelPath>)
    requires Walking(tree, root, EVERYTHING, stack, read, pending) && entry in pending
    requires tally.Matches(tree, views, CountedSeen(tree, root, read, pending))
    modifies tally
    ensures tally.Matches(tree, views, CountedSeen(tree, root, read, pending - {entry}))
  {
    InsightTakes(tree, root, stack, read, pending, entry);
    ghost var files := CountedSeen(tree, root, read, pending);
    if tree[entry].File? && !IsStagingName(Name(entry)) {
      tally.Record(tree, views, entry, files);
    } else {
      assert files + {} == files;
    }
  }

  /** Reads one folder: its files are recorded, its folders pushed. */
  method ReadFolder(tree: Tree, root: RelPath, views: Breakdown, tally: Tally, dir: RelPath,
                    before: seq<RelPath>, ghost read: set<RelPath>)
    returns (stack: seq<RelPath>)
    requires Walking(tree, root, EVERYTHING, before, read, Entries(tree, dir))
    requires tally.Matches(tree, views, CountedSeen(tree, root, read, Entries(tree, dir)))
    modifies tally
    ensures Walking(tree, root, EVERYTHING, stack, read, {})
    ensures tally.Matches(tree, views, CountedSeen(tree, root, read, {}))
  {
    stack := before;
    var pending := Entries(tree, dir);
    while pending != {}
      invariant Walking(tree, root, EVERYTHING, stack, read, pending)
      invariant tally.Matches(tree, views, CountedSeen(tree, root, read, pending))
      decreases pending
    {
      var entry :| entry in pending;
      InsightTakes(tree, root, stack, read, pending, entry);
      RecordEntry(tree, root, views, tally, entry, stack, read, pending);
      if tree[entry].Folder? {
        stack := stack + [entry];
      }
      pending := pending - {entry};
    }
  }

  /** The walk of `tree_insights`. */
  method FillTally(tree: Tree, root: RelPath, views: Breakdown) returns (tally: Tally)
    requires WellFormed(tree) && root in tree && tree[root].Folder?
    ensures fresh(tally) && tally.Matches(tree, views, FilesUnder(tree, root))
  {
    tally := new Tally();
    NothingTallied(tally, tree, views);
    var stack := [root];
    ghost var read: set<RelPath> := {};
    InsightStarts(tree, root);
    while stack != []
      invariant fresh(tally)
      invariant Walking(tree, root, EVERYTHING, stack, read, {})
      invariant tally.Matches(tree, views, CountedSeen(tree, root, read, {}))
      decreases |ToReadSet(tree, root, EVERYTHING) - read|
    {
      var dir := stack[|stack| - 1];
      InsightPops(tree, root, stack, read);
      read := read + {dir};
      stack := ReadFolder(tree, root, views, tally, dir, stack[..|stack| - 1], read);
    }
    InsightEnds(tree, root, read);
  }

  lemma TopIsSwapClosed(tree: Tree, candidates: set<RelPath>)
    ensures SwapClosed((top: seq<LargestFile>) => TopOk(tree, candidates, top))
  {
    forall top: seq<LargestFile>, k: nat | k + 1 < |top| && TopOk(tree, candidates, top)
      ensures TopOk(tree, candidates, Swap(top, k))
    {
      SwapKeeps(tree, candidates, top, k);
    }
  }

  /** `tree_insights`: every breakdown holds exactly the user files of its classes below the root, and the
      list holds the largest of them, largest first. */
  method TreeInsights(tree: Tree, root: RelPath, firstDay: int) returns (tally: Tally)
    requires WellFormed(tree) && root in tree && tree[root].Folder?
    ensures fresh(tally) && tally.Matches(tree, Standard(tree, firstDay), FilesUnder(tree, root))
    ensures LargestFirst(tally.largest)
  {
    tally := FillTally(tree, root, Standard(tree, firstDay));
    ghost var candidates := NonEmpty(tree, FilesUnder(tree, root));
    TopIsSwapClosed(tree, candidates);
    tally.largest := SortBySize(tally.largest, (top: seq<LargestFile>) => TopOk(tree, candidates, top));
  }

  /** Conservation. While the total fits in 64 bits, the types and the size bands each add up to the used
      bytes and to the file count, and these are what `tree_stats` computes; the days add up to the files
      modified within the week. */
  lemma StatisticsConserve(tally: Tally, tree: Tree, root: RelPath, views: Breakdown)
    requires tally.Matches(tree, views, FilesUnder(tree, root)) && Exhaustive(views)
    requires BytesUnder(tree, root) <= U64_MAX && |FilesUnder(tree, root)| <= U64_MAX
    ensures BytesIn(tally.types) == BytesIn(tally.bands) == tally.used == BytesUnder(tree, root)
    ensures CountIn(tally.types) == CountIn(tally.bands) == tally.count == |FilesUnder(tree, root)|
    ensures BytesIn(tally.days) == TotalOf(tree, ClassesBelow(FilesUnder(tree, root), views.days, 7)) <= tally.used
    ensures CountIn(tally.days) == |ClassesBelow(FilesUnder(tree, root), views.days, 7)| <= tally.count
  {
    var files := FilesUnder(tree, root);
    BreakdownConserves(tree, files, views.types, tally.types);
    BreakdownConserves(tree, files, views.bands, tally.bands);
    BucketsConserve(tree, files, views.days, tally.days);
    TotalMonotone(tree, ClassesBelow(files, views.days, 7), files);
    CardinalityMonotone(ClassesBelow(files, views.days, 7), files);
  }

  /** So it is for what `tree_insights` returns: its types and size bands leave no file out. */
  lemma InsightsConserve(tally: Tally, tree: Tree, root: RelPath, firstDay: int)
    requires tally.Matches(tree, Standard(tree, firstDay), FilesUnder(tree, root))
    requires BytesUnder(tree, root) <= U64_MAX && |FilesUnder(tree, root)| <= U64_MAX
    ensures BytesIn(tally.types) == BytesIn(tally.bands) == tally.used == BytesUnder(tree, root)
    ensures CountIn(tally.types) == CountIn(tally.bands) == tally.count == |FilesUnder(tree, root)|
    ensures BytesIn(tally.days) == TotalOf(tree, ClassesBelow(FilesUnder(tree, root), DayOf(tree, firstDay), 7)) <= tally.used
    ensures CountIn(tally.days) == |ClassesBelow(FilesUnder(tree, root), DayOf(tree, firstDay), 7)| <= tally.count
  {
    StandardIsExhaustive(tree, firstDay);
    StatisticsConserve(tally, tree, root, Standard(tree, firstDay));
  }
}
