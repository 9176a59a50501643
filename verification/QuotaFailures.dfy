/** How the storage quota fails: runs in which more is used than one admission after another allowed
    (server/src/handlers/upload.rs). */
module QuotaFailures {
  import opened Prelude
  import opened Text
  import opened Paths
  import opened StagingNames
  import opened UploadModel
  import opened UploadNoHoles
  import opened UploadCollisions
  import opened Sums
  import opened Quota
  import opened QuotaLedger
  import opened QuotaOverRuns

  lemma NothingUsed(user: User, total: nat, id: Uuid, limit: nat)
    requires total <= limit < U64_MAX
    ensures QuotaAllows(EMPTY, user, WalkOf(user), total, id, limit) && StagedBytes(EMPTY, user) == 0
  {
    assert Sizes(EMPTY.files, WalkOf(user)) == map[];
    assert Outstanding(EMPTY, user) - {id} == map[];
    assert StagedParts(EMPTY, user) == map[];
  }

  lemma TwoFilesUsed(w: World, counted: Counted, a: FileKey, b: FileKey)
    requires a != b && counted(a) && counted(b) && a in w.files && b in w.files && w.files.Keys == {a, b}
    ensures Used(w, counted) == |w.files[a]| + |w.files[b]|
  {
    var sizes := Sizes(w.files, counted);
    SumTake(sizes, a);
    SumTake(sizes - {a}, b);
    assert sizes - {a} - {b} == map[];
  }

  /** Two first chunks of different uploads may both pass the check before either has a row: the per-upload lock does
      not keep them apart. Two uploads of the whole limit then use twice the limit. */
  lemma OverlappingAdmissions(p: ChunkRequest, a: Place, q: ChunkRequest, b: Place, now: nat, limit: nat)
    requires p.user == q.user && p.id != q.id && p.total == q.total == limit < U64_MAX
    requires p.offset == q.offset == 0 && p.contentLength.None? && q.contentLength.None?
    requires |p.body| == |q.body| == limit
    requires a.target != a.staging && b.target != b.staging && a.target != b.target && a.target != b.staging
    requires WalkOf(p.user)(a.target) && WalkOf(p.user)(b.target)
    ensures QuotaAllows(EMPTY, p.user, WalkOf(p.user), p.total, p.id, limit)
    ensures QuotaAllows(EMPTY, q.user, WalkOf(q.user), q.total, q.id, limit)
    ensures var w := ChunkAt(ChunkAt(EMPTY, p, a, NO_FAULTS, now).0, q, b, NO_FAULTS, now).0;
            Used(w, WalkOf(p.user)) == 2 * limit && StagedBytes(EMPTY, p.user) == 0
  {
    NothingUsed(p.user, limit, p.id, limit);
    NothingUsed(q.user, limit, q.id, limit);
    WholeInOneChunk(EMPTY, p, a, now);
    var w1 := ChunkAt(EMPTY, p, a, NO_FAULTS, now).0;
    WholeInOneChunk(w1, q, b, now);
    TwoFilesUsed(ChunkAt(w1, q, b, NO_FAULTS, now).0, WalkOf(p.user), a.target, b.target);
  }

  /** The request that places its file and loses the commit. */
  const LOST_COMMIT: ChunkFaults := NO_FAULTS.(commit := FailsBefore)

  lemma PlacedWithoutCommit(w: World, q: ChunkRequest, at: Place, now: nat)
    requires at.staging !in w.files && at.target != at.staging
    requires q.offset == 0 && q.contentLength.None? && |q.body| == q.total
    requires q.id !in w.jobs || w.jobs[q.id] == Job(q.user, at.text, 0, Receiving, 0, Some(q.total), None, NoError, now)
    ensures var w' := ChunkAt(w, q, at, LOST_COMMIT, now).0;
            && w'.files == w.files[at.target := q.body]
            && w'.jobs == w.jobs[q.id := Job(q.user, at.text, 0, Receiving, 0, Some(q.total), None, NoError, now)]
  {
    assert [][..0] + q.body + [] == q.body;
  }

  /** Why the targets must have one text each: two targets with one stored text share a row, and with two lost commits
      one admission pays for both. */
  lemma TwinsShareAnAdmission(p: ChunkRequest, q: ChunkRequest, a: RelPath, b: RelPath, now: nat, maxBytes: nat, limit: nat)
    requires p.user == q.user && p.id == q.id && p.total == q.total == limit < U64_MAX && limit <= maxBytes
    requires Locate(p.folder, p.name) == Some(a) && Locate(q.folder, q.name) == Some(b)
    requires a != b && StoredText(a) == StoredText(b) && !IsStagingName(FileName(a)) && !IsStagingName(FileName(b))
    requires p.offset == q.offset == 0 && p.contentLength.None? && q.contentLength.None? && |p.body| == |q.body| == limit
    ensures QuotaAllows(EMPTY, p.user, WalkOf(p.user), limit, p.id, limit) && StagedBytes(EMPTY, p.user) == 0
    ensures var steps := [ChunkStep(p, LOST_COMMIT, now), ChunkStep(q, LOST_COMMIT, now)];
            && Opened(EMPTY, steps, p.user, maxBytes) == limit
            && Used(Run(EMPTY, steps, maxBytes), WalkOf(p.user)) == 2 * limit
  {
    NothingUsed(p.user, limit, p.id, limit);
    PlaceIsUncounted(p.user, a, p.id, p.user);
    PlaceIsUncounted(q.user, b, q.id, q.user);
    TwinPlaces(p, PlaceOf(p.user, a, p.id), q, PlaceOf(q.user, b, q.id), now, limit);
    TwinRun(p, PlaceOf(p.user, a, p.id), q, PlaceOf(q.user, b, q.id), now, maxBytes);
  }

  lemma TwinPlaces(p: ChunkRequest, a: Place, q: ChunkRequest, b: Place, now: nat, limit: nat)
    requires p.user == q.user && p.id == q.id && p.total == q.total == limit
    requires a.text == b.text && a.target != b.target && a.target != a.staging && b.target != b.staging
    requires WalkOf(p.user)(a.target) && WalkOf(p.user)(b.target) && !WalkOf(p.user)(b.staging)
    requires p.offset == q.offset == 0 && p.contentLength.None? && q.contentLength.None? && |p.body| == |q.body| == limit
    ensures var w1 := ChunkAt(EMPTY, p, a, LOST_COMMIT, now).0;
            && w1 != EMPTY && !Opens(w1, q, p.user)
            && Used(ChunkAt(w1, q, b, LOST_COMMIT, now).0, WalkOf(p.user)) == 2 * limit
  {
    PlacedWithoutCommit(EMPTY, p, a, now);
    var w1 := ChunkAt(EMPTY, p, a, LOST_COMMIT, now).0;
    PlacedWithoutCommit(w1, q, b, now);
    TwoFilesUsed(ChunkAt(w1, q, b, LOST_COMMIT, now).0, WalkOf(p.user), a.target, b.target);
  }

  lemma TwinRun(p: ChunkRequest, a: Place, q: ChunkRequest, b: Place, now: nat, maxBytes: nat)
    requires LocateChunk(p) == Some(a) && LocateChunk(q) == Some(b) && p.user == q.user
    requires p.total <= maxBytes && q.total <= maxBytes
    requires ChunkAt(EMPTY, p, a, LOST_COMMIT, now).0 != EMPTY && !Opens(ChunkAt(EMPTY, p, a, LOST_COMMIT, now).0, q, p.user)
    ensures var steps := [ChunkStep(p, LOST_COMMIT, now), ChunkStep(q, LOST_COMMIT, now)];
            && Opened(EMPTY, steps, p.user, maxBytes) == p.total
            && Run(EMPTY, steps, maxBytes) == ChunkAt(ChunkAt(EMPTY, p, a, LOST_COMMIT, now).0, q, b, LOST_COMMIT, now).0
  {
    var s, t := ChunkStep(p, LOST_COMMIT, now), ChunkStep(q, LOST_COMMIT, now);
    var w1 := Apply(EMPTY, s, maxBytes);
    assert w1 == ChunkAt(EMPTY, p, a, LOST_COMMIT, now).0;
    assert Apply(w1, t, maxBytes) == ChunkAt(w1, q, b, LOST_COMMIT, now).0;
    RunOfTwo(EMPTY, s, t, p.user, maxBytes);
  }

  lemma RunOfTwo(w: World, s: Step, t: Step, user: User, maxBytes: nat)
    ensures Run(w, [s, t], maxBytes) == Apply(Apply(w, s, maxBytes), t, maxBytes)
    ensures Opened(w, [s, t], user, maxBytes) == OpenedBy(w, s, user, maxBytes) + OpenedBy(Apply(w, s, maxBytes), t, user, maxBytes)
  {
    var w1 := Apply(w, s, maxBytes);
    assert [s, t][1..] == [t] && [t][1..] == [];
    assert Run(w1, [t], maxBytes) == Run(Apply(w1, t, maxBytes), [], maxBytes);
    assert Opened(w1, [t], user, maxBytes) == OpenedBy(w1, t, user, maxBytes) + Opened(Apply(w1, t, maxBytes), [], user, maxBytes);
  }

  /** Two such requests: a file whose name holds a backslash, and a file in a folder. */
  lemma BackslashTwinsShareAnAdmission(user: User, id: Uuid, mine: Bytes, theirs: Bytes, now: nat, maxBytes: nat, limit: nat)
    requires |mine| == |theirs| == limit < U64_MAX && limit <= maxBytes
    ensures var p := ChunkRequest(user, id, "", "a\\b", 0, limit, None, mine);
            var q := ChunkRequest(user, id, "a", "b", 0, limit, None, theirs);
            var steps := [ChunkStep(p, LOST_COMMIT, now), ChunkStep(q, LOST_COMMIT, now)];
            && QuotaAllows(EMPTY, user, WalkOf(user), limit, id, limit) && StagedBytes(EMPTY, user) == 0
            && Opened(EMPTY, steps, user, maxBytes) == limit && Used(Run(EMPTY, steps, maxBytes), WalkOf(user)) == 2 * limit
  {
    var p := ChunkRequest(user, id, "", "a\\b", 0, limit, None, mine);
    var q := ChunkRequest(user, id, "a", "b", 0, limit, None, theirs);
    LocatedTwins();
    BackslashTwins();
    ShortNameIsUnmarked("a\\b");
    ShortNameIsUnmarked("b");
    TwinsShareAnAdmission(p, q, ["a\\b"], ["a", "b"], now, maxBytes, limit);
  }

  lemma SimpleName(name: string)
    requires IsNormal(name) && Trimmed(name)
    ensures FileNameOf(name) == Some(name) && Trim(name) != ""
  {
    SplitOfPiece(name, "", '/');
    TrimFixedPoint(name);
    assert LastNormal([name]) == Some(name);
  }

  lemma ShortNameIsUnmarked(name: string)
    requires |name| < |STAGING_MARKER|
    ensures !IsStagingName(name)
  {
  }

  lemma LocatedTwins()
    ensures Locate("", "a\\b") == Some(["a\\b"]) && Locate("a", "b") == Some(["a", "b"])
  {
    SimpleName("a\\b");
    SimpleName("b");
    FolderParses();
    assert [] + ["a\\b"] == ["a\\b"];
    assert ["a"] + ["b"] == ["a", "b"];
  }

  lemma FolderParses()
    ensures Parse("") == Ok([]) && Parse("a") == Ok(["a"])
  {
    SplitOfPiece("a", "", '/');
    TrimFixedPoint("a");
  }

  // ------------------------------------------------------------ a cancelled upload comes back

  /** The failed row of a cancelled upload, and no file. */
  function CancelledWorld(q: ChunkRequest, text: string, now: nat): World {
    World(map[q.id := Job(q.user, text, |q.body|, Failed, |q.body|, Some(q.total), None, Cancelled, now)], map[])
  }

  lemma CancelsFirst(q: ChunkRequest, at: Place, now: nat)
    requires q.offset == 0 && q.contentLength.None? && 0 < |q.body| < q.total && PlaceRead(q.user, at.text, q.id) == Some(at)
    ensures Cancel(ChunkAt(EMPTY, q, at, NO_FAULTS, now).0, q.user, q.id, true, Done, now).0 == CancelledWorld(q, at.text, now)
  {
    StartsUpload(q, at, now);
    var w := ChunkAt(EMPTY, q, at, NO_FAULTS, now).0;
    assert w.files - {at.staging} == map[];
  }

  /** Nothing of a cancelled upload counts any more, neither as usage nor as reservation. */
  lemma NothingCountsAfterCancel(q: ChunkRequest, text: string, now: nat, id: Uuid, limit: nat)
    requires limit < U64_MAX
    ensures var w := CancelledWorld(q, text, now);
            QuotaAllows(w, q.user, WalkOf(q.user), limit, id, limit) && StagedBytes(w, q.user) == 0
  {
    var w := CancelledWorld(q, text, now);
    assert Sizes(w.files, WalkOf(q.user)) == map[];
    assert Outstanding(w, q.user) - {id} == map[];
    assert StagedParts(w, q.user) == map[];
  }

  /** The request that comes back finds its failed row, and its quota is not asked for. */
  const UNCHECKED: ChunkFaults := NO_FAULTS.(quotaOk := false)

  lemma ResumesUnchecked(w: World, q: ChunkRequest, at: Place, now: nat)
    requires q.id in w.jobs && w.jobs[q.id].user == q.user && w.jobs[q.id].path == at.text && w.jobs[q.id].total == Some(q.total)
    requires w.jobs[q.id].status == Failed && w.jobs[q.id].received > 0
    requires at.staging !in w.files && at.target != at.staging
    requires q.offset == 0 && q.contentLength.None? && |q.body| == q.total
    ensures ChunkAt(w, q, at, UNCHECKED, now).0.files == w.files[at.target := q.body]
    ensures ChunkAt(w, q, at, UNCHECKED, now).1 == Finished(q.total)
  {
    assert [][..0] + q.body + [] == q.body;
  }

  /** Admit an upload, send a part of it, cancel it: its row fails and its reservation ends, so another upload of the whole limit
      is admitted. Then the cancelled one goes on: a request that finds its row is not checked. */
  lemma CancelledUploadReturnsUnchecked(first: ChunkRequest, a: RelPath, other: ChunkRequest, b: RelPath, whole: Bytes,
                                        now: nat, maxBytes: nat, limit: nat)
    requires first.user == other.user && first.id != other.id && first.total == other.total == limit < U64_MAX && limit <= maxBytes
    requires Locate(first.folder, first.name) == Some(a) && Locate(other.folder, other.name) == Some(b)
    requires a != b && Reparses(a) && !IsStagingName(FileName(a)) && !IsStagingName(FileName(b))
    requires first.offset == other.offset == 0 && first.contentLength.None? && other.contentLength.None?
    requires 0 < |first.body| < limit && |other.body| == |whole| == limit
    ensures var user, counted := first.user, WalkOf(first.user);
            var cancelled := Run(EMPTY, [ChunkStep(first, NO_FAULTS, now), CancelStep(user, first.id, true, Done, now)], maxBytes);
            var rest := [ChunkStep(other, NO_FAULTS, now), ChunkStep(first.(body := whole), UNCHECKED, now)];
            && QuotaAllows(EMPTY, user, counted, limit, first.id, limit)
            && QuotaAllows(cancelled, user, counted, limit, other.id, limit) && StagedBytes(cancelled, user) == 0
            && Used(Run(cancelled, rest, maxBytes), counted) == 2 * limit
  {
    PlacesOfPair(first, a, other, b);
    ComesBack(first, PlaceOf(first.user, a, first.id), other, PlaceOf(first.user, b, other.id), whole, now, maxBytes, limit);
  }

  lemma PlacesOfPair(first: ChunkRequest, a: RelPath, other: ChunkRequest, b: RelPath)
    requires first.user == other.user && Locate(first.folder, first.name) == Some(a) && Locate(other.folder, other.name) == Some(b)
    requires a != b && Reparses(a) && !IsStagingName(FileName(a)) && !IsStagingName(FileName(b))
    ensures var at, bt := PlaceOf(first.user, a, first.id), PlaceOf(first.user, b, other.id);
            && LocateChunk(first) == Some(at) && LocateChunk(other) == Some(bt) && PlaceRead(first.user, at.text, first.id) == Some(at)
            && PlacedApart(at, bt, WalkOf(first.user))
  {
    PlaceIsUncounted(first.user, a, first.id, first.user);
    PlaceIsUncounted(first.user, b, other.id, first.user);
  }

  /** Both targets are counted and different, and neither is a staging file. */
  predicate PlacedApart(a: Place, b: Place, counted: Counted) {
    && a.target != b.target && a.target != a.staging && b.target != b.staging
    && counted(a.target) && counted(b.target) && !counted(a.staging)
  }

  lemma ComesBack(first: ChunkRequest, at: Place, other: ChunkRequest, bt: Place, whole: Bytes, now: nat, maxBytes: nat, limit: nat)
    requires first.user == other.user && first.id != other.id && first.total == other.total == limit < U64_MAX && limit <= maxBytes
    requires LocateChunk(first) == Some(at) && LocateChunk(other) == Some(bt) && PlaceRead(first.user, at.text, first.id) == Some(at)
    requires PlacedApart(at, bt, WalkOf(first.user))
    requires first.offset == other.offset == 0 && first.contentLength.None? && other.contentLength.None?
    requires 0 < |first.body| < limit && |other.body| == |whole| == limit
    ensures var user, counted := first.user, WalkOf(first.user);
            var cancelled := Run(EMPTY, [ChunkStep(first, NO_FAULTS, now), CancelStep(user, first.id, true, Done, now)], maxBytes);
            var rest := [ChunkStep(other, NO_FAULTS, now), ChunkStep(first.(body := whole), UNCHECKED, now)];
            && QuotaAllows(EMPTY, user, counted, limit, first.id, limit)
            && QuotaAllows(cancelled, user, counted, limit, other.id, limit) && StagedBytes(cancelled, user) == 0
            && Used(Run(cancelled, rest, maxBytes), counted) == 2 * limit
  {
    NothingUsed(first.user, limit, first.id, limit);
    AfterCancel(first, at, first.(body := whole), now, other.id, maxBytes, limit);
    var cancelled := Run(EMPTY, [ChunkStep(first, NO_FAULTS, now), CancelStep(first.user, first.id, true, Done, now)], maxBytes);
    BothComplete(cancelled, first.(body := whole), at, other, bt, WalkOf(first.user), now, maxBytes);
  }

  lemma CancelRun(q: ChunkRequest, at: Place, now: nat, maxBytes: nat)
    requires LocateChunk(q) == Some(at) && PlaceRead(q.user, at.text, q.id) == Some(at)
    requires q.offset == 0 && q.contentLength.None? && 0 < |q.body| < q.total <= maxBytes
    ensures Run(EMPTY, [ChunkStep(q, NO_FAULTS, now), CancelStep(q.user, q.id, true, Done, now)], maxBytes)
         == CancelledWorld(q, at.text, now)
  {
    CancelsFirst(q, at, now);
    FaultFreeChunk(EMPTY, q, at, now, maxBytes);
    RunOfTwo(EMPTY, ChunkStep(q, NO_FAULTS, now), CancelStep(q.user, q.id, true, Done, now), q.user, maxBytes);
  }

  lemma ReturnsAfterCancel(first: ChunkRequest, resumed: ChunkRequest, at: Place, now: nat)
    requires resumed.id == first.id && resumed.user == first.user && resumed.total == first.total && first.body != []
    ensures Returns(CancelledWorld(first, at.text, now), resumed, at)
  {
  }

  lemma AfterCancel(first: ChunkRequest, at: Place, resumed: ChunkRequest, now: nat, id: Uuid, maxBytes: nat, limit: nat)
    requires resumed.id == first.id && resumed.user == first.user && resumed.total == first.total
    requires LocateChunk(first) == Some(at) && PlaceRead(first.user, at.text, first.id) == Some(at)
    requires first.offset == 0 && first.contentLength.None? && 0 < |first.body| < first.total <= maxBytes && limit < U64_MAX
    ensures var w := Run(EMPTY, [ChunkStep(first, NO_FAULTS, now), CancelStep(first.user, first.id, true, Done, now)], maxBytes);
            && QuotaAllows(w, first.user, WalkOf(first.user), limit, id, limit) && StagedBytes(w, first.user) == 0
            && Returns(w, resumed, at)
  {
    CancelRun(first, at, now, maxBytes);
    NothingCountsAfterCancel(first, at.text, now, id, limit);
    ReturnsAfterCancel(first, resumed, at, now);
  }

  lemma OnlyTwoUsed(w: World, counted: Counted, a: FileKey, x: Bytes, b: FileKey, y: Bytes)
    requires w.files == map[b := y][a := x] && a != b && counted(a) && counted(b)
    ensures Used(w, counted) == |x| + |y|
  {
    TwoFilesUsed(w, counted, a, b);
  }

  lemma BothComplete(w: World, resumed: ChunkRequest, a: Place, other: ChunkRequest, b: Place, counted: Counted, now: nat, maxBytes: nat)
    requires LocateChunk(resumed) == Some(a) && LocateChunk(other) == Some(b) && resumed.id != other.id
    requires resumed.total <= maxBytes && other.total <= maxBytes
    requires Returns(w, resumed, a)
    requires resumed.offset == other.offset == 0 && resumed.contentLength.None? && other.contentLength.None?
    requires |resumed.body| == resumed.total && |other.body| == other.total
    requires PlacedApart(a, b, counted)
    ensures Used(Run(w, [ChunkStep(other, NO_FAULTS, now), ChunkStep(resumed, UNCHECKED, now)], maxBytes), counted)
         == other.total + resumed.total
  {
    BothPlaced(w, resumed, a, other, b, now);
    TwoChunksFrom(w, other, b, NO_FAULTS, resumed, a, UNCHECKED, now, maxBytes);
    var w' := ChunkAt(ChunkAt(w, other, b, NO_FAULTS, now).0, resumed, a, UNCHECKED, now).0;
    OnlyTwoUsed(w', counted, a.target, resumed.body, b.target, other.body);
  }

  /** All that is left is the failed row of this request, with bytes that were confirmed before. */
  predicate Returns(w: World, q: ChunkRequest, at: Place) {
    && w.files == map[] && w.jobs.Keys == {q.id}
    && w.jobs[q.id].user == q.user && w.jobs[q.id].path == at.text && w.jobs[q.id].total == Some(q.total)
    && w.jobs[q.id].status == Failed && w.jobs[q.id].received > 0
  }

  lemma BothPlaced(w: World, resumed: ChunkRequest, a: Place, other: ChunkRequest, b: Place, now: nat)
    requires Returns(w, resumed, a) && resumed.id != other.id
    requires resumed.offset == other.offset == 0 && resumed.contentLength.None? && other.contentLength.None?
    requires |resumed.body| == resumed.total && |other.body| == other.total
    requires a.target != a.staging && b.target != b.staging && b.target != a.staging
    ensures var w' := ChunkAt(ChunkAt(w, other, b, NO_FAULTS, now).0, resumed, a, UNCHECKED, now).0;
            w'.files == map[b.target := other.body][a.target := resumed.body]
  {
    WholeInOneChunk(w, other, b, now);
    ResumesUnchecked(ChunkAt(w, other, b, NO_FAULTS, now).0, resumed, a, now);
  }

  lemma TwoChunksFrom(w: World, p: ChunkRequest, a: Place, f: ChunkFaults, q: ChunkRequest, b: Place, g: ChunkFaults, now: nat, maxBytes: nat)
    requires LocateChunk(p) == Some(a) && LocateChunk(q) == Some(b) && p.total <= maxBytes && q.total <= maxBytes
    requires f.slot && f.writeAccess && f.parentOk && g.slot && g.writeAccess && g.parentOk
    ensures Run(w, [ChunkStep(p, f, now), ChunkStep(q, g, now)], maxBytes) == ChunkAt(ChunkAt(w, p, a, f, now).0, q, b, g, now).0
  {
    ReachesPlace(w, p, Locate(p.folder, p.name).value, f, now, maxBytes);
    var w1 := ChunkAt(w, p, a, f, now).0;
    ReachesPlace(w1, q, Locate(q.folder, q.name).value, g, now, maxBytes);
    RunOfTwo(w, ChunkStep(p, f, now), ChunkStep(q, g, now), p.user, maxBytes);
  }
}
