/** The cached usage reading (server/src/handlers/upload.rs): an old walk plus what completed since. */
module QuotaCache {
  import opened Prelude
  import opened Paths
  import opened StagingNames
  import opened UploadModel
  import opened UploadNoHoles
  import opened UploadCompletion
  import opened Sums
  import opened Quota
  import opened QuotaLedger
  import opened QuotaOverRuns
  import opened QuotaFailures

  /** A cached walk, with the second before which it started. */
  datatype CacheEntry = CacheEntry(cutoff: nat, bytes: nat)

  function CompletedAfter(w: World, user: User, cutoff: nat): map<Uuid, nat> {
    map id | id in w.jobs && w.jobs[id].user == user && w.jobs[id].status == Completed && w.jobs[id].updatedAt > cutoff
      :: w.jobs[id].sizeBytes
  }

  /** `bytes_completed_since`. */
  ghost function CompletedSince(w: World, user: User, cutoff: nat): nat {
    Sum(CompletedAfter(w, user, cutoff))
  }

  /** `used_bytes` while the entry is fresh. */
  ghost function Reading(w: World, user: User, entry: CacheEntry): nat {
    SaturatingAdd(entry.bytes, CompletedSince(w, user, entry.cutoff))
  }

  function ExtraAt(w: World, id: Uuid, user: User, cutoff: nat): nat {
    Get(CompletedAfter(w, user, cutoff), id)
  }

  /** The usage may have grown by no more than the completions grew. */
  ghost predicate Covered(a: World, b: World, user: User, counted: Counted, cutoff: nat) {
    Used(b, counted) + CompletedSince(a, user, cutoff) <= Used(a, counted) + CompletedSince(b, user, cutoff)
  }

  lemma LocalCover(a: World, b: World, user: User, counted: Counted, cutoff: nat, id: Uuid, at: Place)
    requires SameElsewhere(a, b, id, at) && !counted(at.staging)
    requires SizeAt(b, at.target, counted) + ExtraAt(a, id, user, cutoff)
          <= SizeAt(a, at.target, counted) + ExtraAt(b, id, user, cutoff)
    ensures Covered(a, b, user, counted, cutoff)
  {
    SizesMove(a, b, counted, id, at);
    assert CompletedAfter(a, user, cutoff) - {id} == CompletedAfter(b, user, cutoff) - {id};
    SumDiffersAt(CompletedAfter(a, user, cutoff), CompletedAfter(b, user, cutoff), id);
  }

  lemma ShrinkingCover(a: World, b: World, user: User, counted: Counted, cutoff: nat)
    requires forall k :: k in b.files && counted(k) ==> k in a.files && |b.files[k]| <= |a.files[k]|
    requires forall id :: id in CompletedAfter(a, user, cutoff) ==> id in b.jobs && b.jobs[id] == a.jobs[id]
    ensures Covered(a, b, user, counted, cutoff)
  {
    SumMonotone(Sizes(b.files, counted), Sizes(a.files, counted));
    SumMonotone(CompletedAfter(a, user, cutoff), CompletedAfter(b, user, cutoff));
  }

  lemma PrepareExtra(w: World, q: ChunkRequest, at: Place, f: ChunkFaults, now: nat, user: User, cutoff: nat)
    ensures var p := Prepare(w, q, at, f, now);
            && ExtraAt(p.world, q.id, user, cutoff) == ExtraAt(w, q.id, user, cutoff)
            && (p.Proceed? ==> q.id in p.world.jobs && p.world.jobs[q.id].status != Completed
                               && p.world.jobs[q.id].user == q.user)
  {
  }

  lemma ReceiveExtra(w: World, q: ChunkRequest, at: Place, received: nat, f: ChunkFaults, now: nat,
                     user: User, counted: Counted, cutoff: nat)
    requires q.id in w.jobs && at.staging in w.files && at.target != at.staging
    requires w.jobs[q.id].user == q.user && w.jobs[q.id].status != Completed && now > cutoff
    requires q.offset == received == |w.files[at.staging]|
    requires q.user != user ==> !counted(at.target)
    requires received + |q.body| == q.total ==> f.commit.TakesEffect()
    ensures var w' := Receive(w, q, at, received, f, now).0;
            SizeAt(w', at.target, counted) + ExtraAt(w, q.id, user, cutoff)
              <= SizeAt(w, at.target, counted) + ExtraAt(w', q.id, user, cutoff)
  {
    if received + |q.body| == q.total {
      var full := SetFile(w, at.staging, WriteAt(w.files[at.staging], q.offset, q.body));
      assert |full.files[at.staging]| == q.total;
      FinishExtra(full, q, at, f, now, user, counted, cutoff);
    }
  }

  lemma FinishExtra(w: World, q: ChunkRequest, at: Place, f: ChunkFaults, now: nat, user: User, counted: Counted, cutoff: nat)
    requires q.id in w.jobs && at.staging in w.files && at.target != at.staging
    requires w.jobs[q.id].user == q.user && w.jobs[q.id].status != Completed && now > cutoff
    requires |w.files[at.staging]| == q.total && f.commit.TakesEffect()
    requires q.user != user ==> !counted(at.target)
    ensures var w' := Finish(w, q, at, f, now).0;
            SizeAt(w', at.target, counted) + ExtraAt(w, q.id, user, cutoff)
              <= SizeAt(w, at.target, counted) + ExtraAt(w', q.id, user, cutoff)
  {
  }

  lemma ChunkCover(w: World, q: ChunkRequest, at: Place, f: ChunkFaults, now: nat, user: User, counted: Counted, cutoff: nat)
    requires !counted(at.staging) && at.target != at.staging && (q.user != user ==> !counted(at.target))
    requires CommitsRename(w, q, at, f, now) && now > cutoff
    ensures Covered(w, ChunkAt(w, q, at, f, now).0, user, counted, cutoff)
  {
    var p := Prepare(w, q, at, f, now);
    PrepareExtra(w, q, at, f, now, user, cutoff);
    PrepareFrame(w, q, at, f, now);
    PrepareFiles(w, q, at, f, now);
    LocalCover(w, p.world, user, counted, cutoff, q.id, at);
    if p.Proceed? {
      PrepareIsExact(w, q, at, f, now);
      ReceiveExtra(p.world, q, at, p.received, f, now, user, counted, cutoff);
      ReceiveFrame(p.world, q, at, p.received, f, now);
      LocalCover(p.world, Receive(p.world, q, at, p.received, f, now).0, user, counted, cutoff, q.id, at);
    }
  }

  /** A whole-file upload whose rename, if it happens, is followed by its commit. */
  predicate FileCommits(f: FileFaults) {
    f.quotaOk && f.rename.Renamed? ==> f.commit.TakesEffect()
  }

  lemma PlaceFileExtra(w: World, q: FileRequest, at: Place, f: FileFaults, now: nat, user: User, counted: Counted, cutoff: nat)
    requires q.id in w.jobs && at.staging in w.files && at.target != at.staging
    requires w.jobs[q.id].user == q.user && w.jobs[q.id].status != Completed && now > cutoff
    requires w.files[at.staging] == q.body && FileCommits(f)
    requires q.user != user ==> !counted(at.target)
    ensures var w' := PlaceFile(w, q, at, f, now).0;
            SizeAt(w', at.target, counted) + ExtraAt(w, q.id, user, cutoff)
              <= SizeAt(w, at.target, counted) + ExtraAt(w', q.id, user, cutoff)
  {
  }

  /** Before it is placed a whole-file upload neither touches its target nor completes its row. */
  lemma StageFileExtra(w: World, q: FileRequest, at: Place, f: FileFaults, now: nat, user: User, counted: Counted, cutoff: nat)
    requires at.target != at.staging && now > cutoff && FileCommits(f)
    requires q.id in w.jobs ==> w.jobs[q.id].user == q.user && w.jobs[q.id].status != Completed
    requires q.user != user ==> !counted(at.target)
    ensures var w' := StageFile(w, q, at, f, now).0;
            SizeAt(w', at.target, counted) + ExtraAt(w, q.id, user, cutoff)
              <= SizeAt(w, at.target, counted) + ExtraAt(w', q.id, user, cutoff)
  {
    if f.claim.Done? && f.create.Done? {
      var w3 := SetFile(SetFile(ClaimFile(w, q, at.text, now), at.staging, []), at.staging, q.body);
      PlaceFileExtra(w3, q, at, f, now, user, counted, cutoff);
    }
  }

  lemma FileCover(w: World, q: FileRequest, at: Place, f: FileFaults, now: nat, user: User, counted: Counted, cutoff: nat)
    requires !counted(at.staging) && at.target != at.staging && (q.user != user ==> !counted(at.target))
    requires q.id in w.jobs ==> w.jobs[q.id].user == q.user && w.jobs[q.id].status != Completed
    requires FileCommits(f) && now > cutoff
    ensures Covered(w, StageFile(w, q, at, f, now).0, user, counted, cutoff)
  {
    StageFileExtra(w, q, at, f, now, user, counted, cutoff);
    FileFrame(w, q, at, f, now);
    LocalCover(w, StageFile(w, q, at, f, now).0, user, counted, cutoff, q.id, at);
  }

  lemma FileStepCover(w: World, q: FileRequest, f: FileFaults, now: nat, user: User, cutoff: nat)
    requires FileCommits(f) && now > cutoff
    ensures Covered(w, WholeFile(w, q, f, now).0, user, WalkOf(user), cutoff)
  {
    WholeFileCases(w, q, f, now);
    if WholeFile(w, q, f, now).0 != w {
      WholeFileStarts(w, q, f, now);
      PlaceIsUncounted(q.user, Parse(q.folder).value + [FileNameOf(q.name).value], q.id, user);
      FileCover(w, q, LocateFile(q).value, f, now, user, WalkOf(user), cutoff);
    }
  }

  /** A whole-file upload that changes anything found no row, or an unfinished one of its own account. */
  lemma WholeFileStarts(w: World, q: FileRequest, f: FileFaults, now: nat)
    requires WholeFile(w, q, f, now).0 != w
    ensures q.id in w.jobs ==> w.jobs[q.id].user == q.user && w.jobs[q.id].status != Completed
  {
  }

  /** Steps of uploads and deletions while a cache entry lives: every completion of this account falls in a later second than
      the cutoff and is committed, no completed row is expired or pruned meanwhile, and other handlers make no counted file
      larger. Recovery and startup cleanup run
      before the server answers requests, when nothing is cached yet. */
  predicate Later(w: World, s: Step, user: User, cutoff: nat) {
    match s
    case ChunkStep(q, f, now) =>
      q.user == user ==>
        && now > cutoff
        && (Locate(q.folder, q.name).Some? ==>
              CommitsRename(w, q, PlaceOf(q.user, Locate(q.folder, q.name).value, q.id), f, now))
    case FileStep(q, f, now) => q.user == user ==> now > cutoff && FileCommits(f)
    case CancelStep(_, _, _, _, _) => true
    case ExpireStep(id, _, _) => id in w.jobs ==> w.jobs[id].status != Completed
    case PruneStep(ttl, now) => now <= cutoff + ttl
    case CrashStep(_, _) => true
    case OtherWrite(key, content) => content.None? || !WalkOf(user)(key) || |content.value| <= SizeAt(w, key, WalkOf(user))
    case RecoverStep(_, _, _) => false
    case CleanupStep(_, _, _, _) => false
  }

  /** A step that leaves the account's counted files and completed rows alone. */
  lemma ForeignCover(a: World, b: World, user: User, counted: Counted, cutoff: nat, id: Uuid, at: Place, caller: User)
    requires SameElsewhere(a, b, id, at) && RespectsOwner(a, b, caller, id) && caller != user
    requires !counted(at.staging) && !counted(at.target)
    ensures Covered(a, b, user, counted, cutoff)
  {
    LocalCover(a, b, user, counted, cutoff, id, at);
  }

  lemma ForeignChunkCover(w: World, q: ChunkRequest, f: ChunkFaults, now: nat, user: User, cutoff: nat, maxBytes: nat)
    requires q.user != user
    ensures Covered(w, Chunk(w, q, f, now, maxBytes).0, user, WalkOf(user), cutoff)
  {
    ChunkCases(w, q, f, now, maxBytes);
    if LocateChunk(q).Some? {
      var at := LocateChunk(q).value;
      PlaceIsUncounted(q.user, Locate(q.folder, q.name).value, q.id, user);
      ChunkFrame(w, q, at, f, now);
      ForeignCover(w, ChunkAt(w, q, at, f, now).0, user, WalkOf(user), cutoff, q.id, at, q.user);
    }
  }

  lemma ForeignFileCover(w: World, q: FileRequest, f: FileFaults, now: nat, user: User, cutoff: nat)
    requires q.user != user
    ensures Covered(w, WholeFile(w, q, f, now).0, user, WalkOf(user), cutoff)
  {
    WholeFileCases(w, q, f, now);
    if WholeFile(w, q, f, now).0 != w {
      WholeFileStarts(w, q, f, now);
      PlaceIsUncounted(q.user, Parse(q.folder).value + [FileNameOf(q.name).value], q.id, user);
      FileFrame(w, q, LocateFile(q).value, f, now);
      ForeignCover(w, StageFile(w, q, LocateFile(q).value, f, now).0, user, WalkOf(user), cutoff, q.id, LocateFile(q).value, q.user);
    }
  }

  predicate LaterRun(w: World, steps: seq<Step>, user: User, cutoff: nat, maxBytes: nat)
    decreases steps
  {
    steps == []
    || (Later(w, steps[0], user, cutoff) && LaterRun(Apply(w, steps[0], maxBytes), steps[1..], user, cutoff, maxBytes))
  }

  lemma ChunkStepCover(w: World, q: ChunkRequest, f: ChunkFaults, now: nat, user: User, cutoff: nat, maxBytes: nat)
    requires now > cutoff
    requires Locate(q.folder, q.name).Some? ==>
               CommitsRename(w, q, PlaceOf(q.user, Locate(q.folder, q.name).value, q.id), f, now)
    ensures Covered(w, Chunk(w, q, f, now, maxBytes).0, user, WalkOf(user), cutoff)
  {
    ChunkCases(w, q, f, now, maxBytes);
    if LocateChunk(q).Some? {
      PlaceIsUncounted(q.user, Locate(q.folder, q.name).value, q.id, user);
      ChunkCover(w, q, LocateChunk(q).value, f, now, user, WalkOf(user), cutoff);
    }
  }

  lemma CrashStepCover(w: World, key: FileKey, kept: Option<nat>, user: User, cutoff: nat)
    ensures Covered(w, Crash(w, key, kept), user, WalkOf(user), cutoff)
  {
    ShrinkingCover(w, Crash(w, key, kept), user, WalkOf(user), cutoff);
  }

  lemma CancelStepCover(w: World, caller: User, id: Uuid, removeOk: bool, mark: Outcome, now: nat, user: User, cutoff: nat)
    ensures Covered(w, Cancel(w, caller, id, removeOk, mark, now).0, user, WalkOf(user), cutoff)
  {
    CancelFrame(w, caller, id, removeOk, mark, now);
    ShrinkingCover(w, Cancel(w, caller, id, removeOk, mark, now).0, user, WalkOf(user), cutoff);
  }

  lemma ExpireStepCover(w: World, id: Uuid, f: RowFaults, now: nat, user: User, cutoff: nat)
    requires id in w.jobs ==> w.jobs[id].status != Completed
    ensures Covered(w, ExpireRow(w, id, f, now), user, WalkOf(user), cutoff)
  {
    ExpireFrame(w, id, f.removeOk, now);
    ShrinkingCover(w, ExpireRow(w, id, f, now), user, WalkOf(user), cutoff);
  }

  lemma OtherStepCover(w: World, key: FileKey, content: Option<Bytes>, user: User, counted: Counted, cutoff: nat, maxBytes: nat)
    requires content.None? || !counted(key) || |content.value| <= SizeAt(w, key, counted)
    ensures Covered(w, Apply(w, OtherWrite(key, content), maxBytes), user, counted, cutoff)
  {
    var w' := Apply(w, OtherWrite(key, content), maxBytes);
    if content.Some? && counted(key) {
      OtherWriteCoverIff(w, key, content.value, user, counted, cutoff, maxBytes);
    } else {
      ShrinkingCover(w, w', user, counted, cutoff);
    }
  }

  lemma LaterStepCover(w: World, s: Step, user: User, cutoff: nat, maxBytes: nat)
    requires Later(w, s, user, cutoff)
    ensures Covered(w, Apply(w, s, maxBytes), user, WalkOf(user), cutoff)
  {
    match s
    case ChunkStep(q, f, now) =>
      if q.user == user {
        ChunkStepCover(w, q, f, now, user, cutoff, maxBytes);
      } else {
        ForeignChunkCover(w, q, f, now, user, cutoff, maxBytes);
      }
    case FileStep(q, f, now) =>
      if q.user == user {
        FileStepCover(w, q, f, now, user, cutoff);
      } else {
        ForeignFileCover(w, q, f, now, user, cutoff);
      }
    case CrashStep(key, kept) => CrashStepCover(w, key, kept, user, cutoff);
    case CancelStep(caller, id, removeOk, mark, now) => CancelStepCover(w, caller, id, removeOk, mark, now, user, cutoff);
    case ExpireStep(id, f, now) => ExpireStepCover(w, id, f, now, user, cutoff);
    case OtherWrite(key, content) => OtherStepCover(w, key, content, user, WalkOf(user), cutoff, maxBytes);
    case _ => ShrinkingCover(w, Apply(w, s, maxBytes), user, WalkOf(user), cutoff);
  }

  lemma {:induction false} LaterRunCover(w: World, steps: seq<Step>, user: User, cutoff: nat, maxBytes: nat)
    requires LaterRun(w, steps, user, cutoff, maxBytes)
    ensures Covered(w, Run(w, steps, maxBytes), user, WalkOf(user), cutoff)
    decreases steps
  {
    if steps != [] {
      LaterStepCover(w, steps[0], user, cutoff, maxBytes);
      LaterRunCover(Apply(w, steps[0], maxBytes), steps[1..], user, cutoff, maxBytes);
    }
  }

  /** The cached reading is never below a fresh walk, over runs of uploads and deletions whose
      completions fall in a later second than the cutoff. */
  lemma CachedReadingIsSafe(w: World, steps: seq<Step>, user: User, entry: CacheEntry, maxBytes: nat)
    requires entry.bytes == Used(w, WalkOf(user)) && LaterRun(w, steps, user, entry.cutoff, maxBytes)
    ensures var w' := Run(w, steps, maxBytes);
            Min(Used(w', WalkOf(user)), U64_MAX) <= Reading(w', user, entry)
  {
    LaterRunCover(w, steps, user, entry.cutoff, maxBytes);
  }

  /** Exactly when a completion keeps the reading safe: its commit takes effect in a later second than the cutoff (the
      comparison is strict and seconds are whole), or the file is no larger than the one it replaces. */
  lemma CompletionCoverIff(w: World, q: ChunkRequest, at: Place, f: ChunkFaults, now: nat, counted: Counted, cutoff: nat)
    requires q.id in w.jobs && at.staging in w.files && at.target != at.staging
    requires w.jobs[q.id].user == q.user && w.jobs[q.id].status != Completed
    requires !counted(at.staging) && counted(at.target) && |w.files[at.staging]| == q.total
    requires f.hashOk && f.rename.Renamed?
    ensures Covered(w, Finish(w, q, at, f, now).0, q.user, counted, cutoff) <==>
            (now > cutoff && f.commit.TakesEffect()) || q.total <= SizeAt(w, at.target, counted)
  {
    var w' := Finish(w, q, at, f, now).0;
    FinishFrame(w, q, at, f, now);
    SizesMove(w, w', counted, q.id, at);
    assert CompletedAfter(w, q.user, cutoff) - {q.id} == CompletedAfter(w', q.user, cutoff) - {q.id};
    SumDiffersAt(CompletedAfter(w, q.user, cutoff), CompletedAfter(w', q.user, cutoff), q.id);
    assert SizeAt(w', at.target, counted) == q.total;
    assert ExtraAt(w, q.id, q.user, cutoff) == 0;
    assert ExtraAt(w', q.id, q.user, cutoff) == if now > cutoff && f.commit.TakesEffect() then q.total else 0;
  }

  /** The whole chunk handler: a request that completes its upload, of any body, from any agreed offset. */
  lemma ChunkCoverIff(w: World, q: ChunkRequest, at: Place, f: ChunkFaults, now: nat, counted: Counted, cutoff: nat)
    requires !counted(at.staging) && counted(at.target) && at.target != at.staging
    requires Prepare(w, q, at, f, now).Proceed? && Prepare(w, q, at, f, now).received + |q.body| == q.total
    requires !f.broken && (q.contentLength.Some? ==> q.contentLength.value == |q.body|) && f.flushOk && f.syncOk
    requires f.hashOk && f.rename.Renamed?
    ensures Covered(w, ChunkAt(w, q, at, f, now).0, q.user, counted, cutoff) <==>
            (now > cutoff && f.commit.TakesEffect()) || q.total <= SizeAt(w, at.target, counted)
  {
    var p := Prepare(w, q, at, f, now);
    PrepareIsExact(w, q, at, f, now);
    PrepareIsUnfinished(w, q, at, f, now);
    PrepareExtra(w, q, at, f, now, q.user, cutoff);
    PrepareFrame(w, q, at, f, now);
    PrepareFiles(w, q, at, f, now);
    NothingCounted(w, p.world, q.user, counted, cutoff, q.id, at);
    var full := SetFile(p.world, at.staging, WriteAt(p.world.files[at.staging], q.offset, q.body));
    NothingCounted(p.world, full, q.user, counted, cutoff, q.id, at);
    CompletionCoverIff(full, q, at, f, now, counted, cutoff);
  }

  /** A step that changes neither the target nor what is completed leaves both sides of the comparison as they are. */
  lemma NothingCounted(a: World, b: World, user: User, counted: Counted, cutoff: nat, id: Uuid, at: Place)
    requires SameElsewhere(a, b, id, at) && !counted(at.staging)
    requires SizeAt(a, at.target, counted) == SizeAt(b, at.target, counted)
    requires ExtraAt(a, id, user, cutoff) == ExtraAt(b, id, user, cutoff)
    ensures Used(a, counted) == Used(b, counted) && CompletedSince(a, user, cutoff) == CompletedSince(b, user, cutoff)
  {
    SizesMove(a, b, counted, id, at);
    assert CompletedAfter(a, user, cutoff) - {id} == CompletedAfter(b, user, cutoff) - {id};
    SumDiffersAt(CompletedAfter(a, user, cutoff), CompletedAfter(b, user, cutoff), id);
  }

  /** Restores, copies and moves write files without a row. The reading stays safe exactly when the file is no larger than
      what was counted at its place; otherwise the usage grows by the difference and the reading not at all. */
  lemma OtherWriteCoverIff(w: World, key: FileKey, content: Bytes, user: User, counted: Counted, cutoff: nat, maxBytes: nat)
    requires counted(key)
    ensures var w' := Apply(w, OtherWrite(key, Some(content)), maxBytes);
            && CompletedSince(w', user, cutoff) == CompletedSince(w, user, cutoff)
            && Used(w', counted) + SizeAt(w, key, counted) == Used(w, counted) + |content|
            && (Covered(w, w', user, counted, cutoff) <==> |content| <= SizeAt(w, key, counted))
  {
    var w' := Apply(w, OtherWrite(key, Some(content)), maxBytes);
    assert CompletedAfter(w', user, cutoff) == CompletedAfter(w, user, cutoff);
    assert Sizes(w'.files, counted) - {key} == Sizes(w.files, counted) - {key};
    SumDiffersAt(Sizes(w.files, counted), Sizes(w'.files, counted), key);
  }

  /** A completion in the very second of the cutoff adds its file to the usage and nothing to the reading. */
  lemma SameSecondIsMissed(w: World, q: ChunkRequest, at: Place, now: nat, user: User, counted: Counted, cutoff: nat)
    requires q.id in w.jobs && at.staging in w.files && at.target !in w.files && at.target != at.staging
    requires w.jobs[q.id].user == user && w.jobs[q.id].status != Completed
    requires !counted(at.staging) && counted(at.target) && now <= cutoff
    requires |w.files[at.staging]| == q.total
    ensures var w' := Finish(w, q, at, NO_FAULTS, now).0;
            && w'.jobs[q.id].status == Completed
            && Used(w', counted) == Used(w, counted) + q.total
            && CompletedSince(w', user, cutoff) == CompletedSince(w, user, cutoff)
  {
    var w' := Finish(w, q, at, NO_FAULTS, now).0;
    SizesMove(w, w', counted, q.id, at);
    assert CompletedAfter(w', user, cutoff) == CompletedAfter(w, user, cutoff);
  }

  lemma CompletionCountsOnce(w: World, q: ChunkRequest, at: Place, now: nat, user: User, counted: Counted, cutoff: nat)
    requires q.id in w.jobs && at.staging in w.files && at.target !in w.files && at.target != at.staging
    requires w.jobs[q.id].user == user && w.jobs[q.id].status != Completed && now > cutoff
    requires !counted(at.staging) && counted(at.target) && |w.files[at.staging]| == q.total
    ensures var w' := Finish(w, q, at, NO_FAULTS, now).0;
            && Used(w', counted) == Used(w, counted) + q.total
            && CompletedSince(w', user, cutoff) == CompletedSince(w, user, cutoff) + q.total
  {
    var w' := Finish(w, q, at, NO_FAULTS, now).0;
    SizesMove(w, w', counted, q.id, at);
    assert CompletedAfter(w, user, cutoff) - {q.id} == CompletedAfter(w', user, cutoff) - {q.id};
    SumDiffersAt(CompletedAfter(w, user, cutoff), CompletedAfter(w', user, cutoff), q.id);
  }

  /** A completion at a free target in a later second counts once: a reading that was exact stays exact. */
  lemma ReadingStaysExact(w: World, q: ChunkRequest, at: Place, now: nat, user: User, counted: Counted, entry: CacheEntry)
    requires q.id in w.jobs && at.staging in w.files && at.target !in w.files && at.target != at.staging
    requires w.jobs[q.id].user == user && w.jobs[q.id].status != Completed && now > entry.cutoff
    requires !counted(at.staging) && counted(at.target) && |w.files[at.staging]| == q.total
    requires Reading(w, user, entry) == Used(w, counted) < U64_MAX
    ensures var w' := Finish(w, q, at, NO_FAULTS, now).0; Reading(w', user, entry) == Min(Used(w', counted), U64_MAX)
  {
    CompletionCountsOnce(w, q, at, now, user, counted, entry.cutoff);
  }

  /** So does a completion whose commit is lost, in whatever second. */
  lemma LostCommitIsMissed(q: ChunkRequest, at: Place, now: nat, cutoff: nat)
    requires at.target != at.staging && WalkOf(q.user)(at.target)
    requires q.offset == 0 && q.contentLength.None? && |q.body| == q.total
    ensures var w := ChunkAt(EMPTY, q, at, LOST_COMMIT, now).0;
            && Used(EMPTY, WalkOf(q.user)) == 0 && Used(w, WalkOf(q.user)) == q.total
            && CompletedSince(w, q.user, cutoff) == 0
  {
    PlacedWithoutCommit(EMPTY, q, at, now);
    var w := ChunkAt(EMPTY, q, at, LOST_COMMIT, now).0;
    var sizes := Sizes(w.files, WalkOf(q.user));
    assert Sizes(EMPTY.files, WalkOf(q.user)) == map[];
    SumTake(sizes, at.target);
    assert sizes - {at.target} == map[];
    assert CompletedAfter(w, q.user, cutoff) == map[];
  }
}
