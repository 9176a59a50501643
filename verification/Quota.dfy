/** The storage quota over runs of chunk uploads (server/src/handlers/upload.rs). */
module Quota {
  import opened Prelude
  import opened Paths
  import opened StagingNames
  import opened UploadModel
  import opened UploadNoHoles
  import opened UploadCompletion
  import opened Sums

  /** Which files a walk of one account's tree counts. */
  type Counted = FileKey -> bool

  /** A walk counts the account's files, except partially uploaded ones. */
  function WalkOf(user: User): Counted {
    (key: FileKey) => key.user == user && !IsStagingName(FileName(key.path))
  }

  function Sizes(files: map<FileKey, Bytes>, counted: Counted): map<FileKey, nat> {
    map key | key in files && counted(key) :: |files[key]|
  }

  /** `tree_stats` of the account's root. */
  ghost function Used(w: World, counted: Counted): nat {
    Sum(Sizes(w.files, counted))
  }

  /** What a job declares it will occupy: its total, or its size when no total is known. */
  function Declared(job: Job): nat {
    if job.total.Some? then job.total.value else job.sizeBytes
  }

  predicate Active(job: Job, user: User) {
    job.user == user && Unfinished(job.status)
  }

  function Declarations(w: World, user: User): map<Uuid, nat> {
    map id | id in w.jobs && Active(w.jobs[id], user) :: Declared(w.jobs[id])
  }

  /** What the active jobs still have to receive, and what of them is staged already. */
  function Outstanding(w: World, user: User): map<Uuid, nat> {
    map id | id in w.jobs && Active(w.jobs[id], user)
      :: if Declared(w.jobs[id]) >= w.jobs[id].received then Declared(w.jobs[id]) - w.jobs[id].received else 0
  }

  function StagedParts(w: World, user: User): map<Uuid, nat> {
    map id | id in w.jobs && Active(w.jobs[id], user) :: Min(Declared(w.jobs[id]), w.jobs[id].received)
  }

  /** `reserved_upload_bytes`, leaving one upload out. */
  ghost function Reserved(w: World, user: User, exclude: Uuid): nat {
    Sum(Outstanding(w, user) - {exclude})
  }

  ghost function StagedBytes(w: World, user: User): nat {
    Sum(StagedParts(w, user))
  }

  /** `ensure_quota` with an exact usage reading; the limit is a signed 64-bit column. */
  ghost predicate QuotaAllows(w: World, user: User, counted: Counted, incoming: nat, exclude: Uuid, limit: nat) {
    SaturatingAdd(SaturatingAdd(Used(w, counted), Reserved(w, user, exclude)), incoming) <= limit
  }

  /** The usage once every active upload has finished in a place of its own. */
  ghost function Committed(w: World, user: User, counted: Counted): nat {
    Used(w, counted) + Sum(Declarations(w, user))
  }

  lemma CommittedSplits(w: World, user: User)
    ensures Sum(Declarations(w, user)) == Sum(Outstanding(w, user)) + StagedBytes(w, user)
  {
    SumSplits(Declarations(w, user), Outstanding(w, user), StagedParts(w, user));
  }

  /** Exactly what the check bounds: the committed usage with the newcomer stays within the limit
      plus the bytes already staged, because staged bytes are counted by neither term. */
  lemma QuotaCheckIsExact(w: World, user: User, counted: Counted, incoming: nat, id: Uuid, limit: nat)
    requires limit < U64_MAX && !(id in w.jobs && Active(w.jobs[id], user))
    ensures QuotaAllows(w, user, counted, incoming, id, limit) <==>
              Committed(w, user, counted) + incoming <= limit + StagedBytes(w, user)
  {
    CommittedSplits(w, user);
    assert Outstanding(w, user) - {id} == Outstanding(w, user);
  }

  /** The check of a whole file comes when its row is active already; what that row still has to receive is left out, so the
      file is not counted twice. */
  lemma QuotaCheckOfActive(w: World, user: User, counted: Counted, incoming: nat, id: Uuid, limit: nat)
    requires limit < U64_MAX && id in w.jobs && Active(w.jobs[id], user)
    ensures var rest := if Declared(w.jobs[id]) >= w.jobs[id].received then Declared(w.jobs[id]) - w.jobs[id].received else 0;
            QuotaAllows(w, user, counted, incoming, id, limit) <==>
              Committed(w, user, counted) + incoming <= limit + StagedBytes(w, user) + rest
  {
    CommittedSplits(w, user);
    SumTake(Outstanding(w, user), id);
  }

  /** What the check reserves for one active row: the rest of its total, or of its size when no total is known. */
  lemma ReservationOf(w: World, user: User, id: Uuid, exclude: Uuid)
    requires id in w.jobs && w.jobs[id].user == user && (w.jobs[id].status == Receiving || w.jobs[id].status == Staging)
    ensures var job := w.jobs[id];
            var whole := match job.total case Some(total) => total case None => job.sizeBytes;
            Reserved(w, user, exclude) == Sum(Outstanding(w, user) - {exclude} - {id})
              + (if id == exclude || whole < job.received then 0 else whole - job.received)
  {
    if id == exclude {
      assert Outstanding(w, user) - {exclude} - {id} == Outstanding(w, user) - {exclude};
    } else {
      SumTake(Outstanding(w, user) - {exclude}, id);
    }
  }

  // --------------------------------------------------------- effect of a step

  function SizeAt(w: World, key: FileKey, counted: Counted): nat {
    if key in w.files && counted(key) then |w.files[key]| else 0
  }

  function WeightOf(w: World, id: Uuid, user: User): nat {
    if id in w.jobs && Active(w.jobs[id], user) then Declared(w.jobs[id]) else 0
  }

  /** A step that differs in one row and one counted file moves the committed usage by what happens there. */
  lemma CommittedMoves(a: World, b: World, user: User, counted: Counted, id: Uuid, at: Place)
    requires SameElsewhere(a, b, id, at) && !counted(at.staging)
    ensures Committed(b, user, counted) + SizeAt(a, at.target, counted) + WeightOf(a, id, user)
         == Committed(a, user, counted) + SizeAt(b, at.target, counted) + WeightOf(b, id, user)
  {
    SizesMove(a, b, counted, id, at);
    DeclarationsMove(a, b, user, id, at);
  }

  lemma SizesMove(a: World, b: World, counted: Counted, id: Uuid, at: Place)
    requires SameElsewhere(a, b, id, at) && !counted(at.staging)
    ensures Used(a, counted) + SizeAt(b, at.target, counted) == Used(b, counted) + SizeAt(a, at.target, counted)
  {
    assert Sizes(a.files, counted) - {at.target} == Sizes(b.files, counted) - {at.target};
    SumDiffersAt(Sizes(a.files, counted), Sizes(b.files, counted), at.target);
  }

  lemma DeclarationsMove(a: World, b: World, user: User, id: Uuid, at: Place)
    requires SameElsewhere(a, b, id, at)
    ensures Sum(Declarations(a, user)) + WeightOf(b, id, user) == Sum(Declarations(b, user)) + WeightOf(a, id, user)
  {
    assert Declarations(a, user) - {id} == Declarations(b, user) - {id};
    SumDiffersAt(Declarations(a, user), Declarations(b, user), id);
  }

  /** No rename of this request is left without its commit. */
  predicate CommitsRename(w: World, q: ChunkRequest, at: Place, f: ChunkFaults, now: nat) {
    var p := Prepare(w, q, at, f, now);
    p.Proceed? && p.received + |q.body| == q.total ==> f.commit.TakesEffect()
  }

  /** What one chunk request may add: its total when it opens a row or reopens a failed one. */
  function Newcomer(w: World, q: ChunkRequest, user: User): nat {
    if q.user != user then 0
    else if q.id in w.jobs && (w.jobs[q.id].user != user || w.jobs[q.id].status != Failed) then 0
    else q.total
  }

  lemma PrepareWeight(w: World, q: ChunkRequest, at: Place, f: ChunkFaults, now: nat, user: User)
    ensures var p := Prepare(w, q, at, f, now);
            && WeightOf(p.world, q.id, user) <= WeightOf(w, q.id, user) + Newcomer(w, q, user)
            && (p.Proceed? ==>
                  && q.id in p.world.jobs && p.world.jobs[q.id].user == q.user
                  && p.world.jobs[q.id].status != Completed && p.world.jobs[q.id].total == Some(q.total)
                  && (q.user == user ==> q.total <= WeightOf(w, q.id, user) + Newcomer(w, q, user)))
  {
  }

  lemma ReceiveWeight(w: World, q: ChunkRequest, at: Place, received: nat, f: ChunkFaults, now: nat,
                      user: User, counted: Counted)
    requires q.id in w.jobs && at.staging in w.files && at.target != at.staging
    requires w.jobs[q.id].user == q.user && w.jobs[q.id].status != Completed && w.jobs[q.id].total == Some(q.total)
    requires q.offset == received == |w.files[at.staging]|
    requires q.user != user ==> !counted(at.target)
    requires received + |q.body| == q.total ==> f.commit.TakesEffect()
    ensures var w' := Receive(w, q, at, received, f, now).0;
            SizeAt(w', at.target, counted) + WeightOf(w', q.id, user)
              <= SizeAt(w, at.target, counted) + (if q.user == user then q.total else 0)
  {
    if received + |q.body| == q.total {
      var full := SetFile(w, at.staging, WriteAt(w.files[at.staging], q.offset, q.body));
      assert |full.files[at.staging]| == q.total;
      FinishWeight(full, q, at, f, now, user, counted);
    }
  }

  lemma FinishWeight(w: World, q: ChunkRequest, at: Place, f: ChunkFaults, now: nat, user: User, counted: Counted)
    requires q.id in w.jobs && at.staging in w.files && at.target != at.staging
    requires w.jobs[q.id].user == q.user && w.jobs[q.id].status != Completed && w.jobs[q.id].total == Some(q.total)
    requires |w.files[at.staging]| == q.total && f.commit.TakesEffect()
    requires q.user != user ==> !counted(at.target)
    ensures var w' := Finish(w, q, at, f, now).0;
            SizeAt(w', at.target, counted) + WeightOf(w', q.id, user)
              <= SizeAt(w, at.target, counted) + (if q.user == user then q.total else 0)
  {
  }

  /** A chunk request that leaves no rename uncommitted never adds more to the committed usage than its newcomer total. */
  lemma ChunkCommits(w: World, q: ChunkRequest, at: Place, f: ChunkFaults, now: nat, user: User, counted: Counted)
    requires !counted(at.staging) && at.target != at.staging && (q.user != user ==> !counted(at.target))
    requires CommitsRename(w, q, at, f, now)
    ensures Committed(ChunkAt(w, q, at, f, now).0, user, counted)
              <= Committed(w, user, counted) + Newcomer(w, q, user)
  {
    var p := Prepare(w, q, at, f, now);
    PrepareWeight(w, q, at, f, now, user);
    PrepareFrame(w, q, at, f, now);
    PrepareFiles(w, q, at, f, now);
    CommittedMoves(w, p.world, user, counted, q.id, at);
    if p.Proceed? {
      PrepareIsExact(w, q, at, f, now);
      ReceiveWeight(p.world, q, at, p.received, f, now, user, counted);
      ReceiveFrame(p.world, q, at, p.received, f, now);
      CommittedMoves(p.world, Receive(p.world, q, at, p.received, f, now).0, user, counted, q.id, at);
    }
  }

  // -------------------------------------------------------------------- runs

  lemma PlaceIsUncounted(user: User, path: RelPath, id: Uuid, walker: User)
    requires path != []
    ensures !WalkOf(walker)(PlaceOf(user, path, id).staging)
    ensures PlaceOf(user, path, id).target != PlaceOf(user, path, id).staging
    ensures user != walker ==> !WalkOf(walker)(PlaceOf(user, path, id).target)
  {
    StagingIsBound(user, path, id);
    assert |FileName(StagingPath(path, id))| > |FileName(path)|;
  }

  /** A step that removes counted files and shrinks or closes rows cannot raise the committed usage. */
  lemma ShrinkingCommits(a: World, b: World, user: User, counted: Counted)
    requires forall k :: k in b.files && counted(k) ==> k in a.files && |b.files[k]| <= |a.files[k]|
    requires forall id :: id in b.jobs && Active(b.jobs[id], user) ==>
               id in a.jobs && Active(a.jobs[id], user) && Declared(b.jobs[id]) <= Declared(a.jobs[id])
    ensures Committed(b, user, counted) <= Committed(a, user, counted)
    ensures Used(b, counted) <= Used(a, counted)
  {
    SumMonotone(Sizes(b.files, counted), Sizes(a.files, counted));
    SumMonotone(Declarations(b, user), Declarations(a, user));
  }

  /** A step that admits nothing new for this account: no row is opened or reopened, no rename is
      left uncommitted, and other handlers only delete the account's files. */
  predicate Quiet(w: World, s: Step, user: User) {
    match s
    case ChunkStep(q, f, now) =>
      && Newcomer(w, q, user) == 0
      && (Locate(q.folder, q.name).Some? ==>
            CommitsRename(w, q, PlaceOf(q.user, Locate(q.folder, q.name).value, q.id), f, now))
    case FileStep(q, _, _) => q.user != user
    case OtherWrite(key, content) => key.user == user ==> content.None?
    case _ => true
  }

  predicate QuietRun(w: World, steps: seq<Step>, user: User, maxBytes: nat)
    decreases steps
  {
    steps == [] || (Quiet(w, steps[0], user) && QuietRun(Apply(w, steps[0], maxBytes), steps[1..], user, maxBytes))
  }

  lemma ChunkStepCommits(w: World, q: ChunkRequest, f: ChunkFaults, now: nat, maxBytes: nat, user: User)
    requires Locate(q.folder, q.name).Some? ==>
               CommitsRename(w, q, PlaceOf(q.user, Locate(q.folder, q.name).value, q.id), f, now)
    ensures Committed(Chunk(w, q, f, now, maxBytes).0, user, WalkOf(user))
              <= Committed(w, user, WalkOf(user)) + Newcomer(w, q, user)
  {
    var path := Locate(q.folder, q.name);
    if path.Some? {
      PlaceIsUncounted(q.user, path.value, q.id, user);
      ChunkCommits(w, q, PlaceOf(q.user, path.value, q.id), f, now, user, WalkOf(user));
    }
  }

  lemma ForeignFileCommits(w: World, q: FileRequest, at: Place, f: FileFaults, now: nat, user: User, counted: Counted)
    requires q.user != user && !counted(at.staging) && !counted(at.target)
    requires !(q.id in w.jobs && w.jobs[q.id].user != q.user)
    ensures Committed(StageFile(w, q, at, f, now).0, user, counted) <= Committed(w, user, counted)
  {
    FileFrame(w, q, at, f, now);
    CommittedMoves(w, StageFile(w, q, at, f, now).0, user, counted, q.id, at);
  }

  lemma FileStepCommits(w: World, q: FileRequest, f: FileFaults, now: nat, user: User)
    requires q.user != user
    ensures Committed(WholeFile(w, q, f, now).0, user, WalkOf(user)) <= Committed(w, user, WalkOf(user))
  {
    var dir := Parse(q.folder);
    var file := FileNameOf(q.name);
    if dir.Ok? && file.Some? && !(q.id in w.jobs && w.jobs[q.id].user != q.user) {
      PlaceIsUncounted(q.user, dir.value + [file.value], q.id, user);
      ForeignFileCommits(w, q, PlaceOf(q.user, dir.value + [file.value], q.id), f, now, user, WalkOf(user));
    }
  }

  lemma RecoverAddsNoFile(w: World, id: Uuid, f: RowFaults, now: nat)
    ensures var w' := RecoverRow(w, id, f, now); forall k :: k in w'.files ==> k in w.files && w'.files[k] == w.files[k]
  {
    RecoverFrame(w, id, f.removeOk, now);
  }

  lemma RecoverOpensNothing(w: World, id: Uuid, f: RowFaults, now: nat, user: User)
    requires id in w.jobs
    ensures var w' := RecoverRow(w, id, f, now);
            id in w'.jobs && (Active(w'.jobs[id], user) ==>
                                && Active(w.jobs[id], user) && w'.jobs[id].path == w.jobs[id].path
                                && w'.jobs[id].total == w.jobs[id].total && Declared(w'.jobs[id]) <= Declared(w.jobs[id]))
  {
    var job, job' := w.jobs[id], RecoveredRow(w, id, f.removeOk, now).jobs[id];
    assert job'.user == job.user && job'.path == job.path && job'.total == job.total;
    assert Unfinished(job'.status) ==> Unfinished(job.status) && job'.sizeBytes <= job.sizeBytes;
  }

  /** Recovering a row adds no file, and opens no row that was closed. */
  lemma RecoverShrinks(w: World, id: Uuid, f: RowFaults, now: nat, user: User)
    ensures var w' := RecoverRow(w, id, f, now);
            && (forall k :: k in w'.files ==> k in w.files && w'.files[k] == w.files[k])
            && (forall i :: i in w'.jobs && Active(w'.jobs[i], user) ==>
                  && i in w.jobs && Active(w.jobs[i], user) && w'.jobs[i].path == w.jobs[i].path
                  && w'.jobs[i].total == w.jobs[i].total && Declared(w'.jobs[i]) <= Declared(w.jobs[i]))
  {
    RecoverAddsNoFile(w, id, f, now);
    RecoverFrame(w, id, f.removeOk, now);
    if id in w.jobs {
      RecoverOpensNothing(w, id, f, now, user);
    }
  }

  lemma RecoverStepCommits(w: World, id: Uuid, f: RowFaults, now: nat, user: User)
    ensures Committed(RecoverRow(w, id, f, now), user, WalkOf(user)) <= Committed(w, user, WalkOf(user))
  {
    RecoverShrinks(w, id, f, now, user);
    ShrinkingCommits(w, RecoverRow(w, id, f, now), user, WalkOf(user));
  }

  lemma CrashStepCommits(w: World, key: FileKey, kept: Option<nat>, user: User)
    ensures Committed(Crash(w, key, kept), user, WalkOf(user)) <= Committed(w, user, WalkOf(user))
  {
    ShrinkingCommits(w, Crash(w, key, kept), user, WalkOf(user));
  }

  lemma CancelStepCommits(w: World, user: User, id: Uuid, removeOk: bool, mark: Outcome, now: nat, owner: User)
    ensures Committed(Cancel(w, user, id, removeOk, mark, now).0, owner, WalkOf(owner)) <= Committed(w, owner, WalkOf(owner))
  {
    CancelFrame(w, user, id, removeOk, mark, now);
    ShrinkingCommits(w, Cancel(w, user, id, removeOk, mark, now).0, owner, WalkOf(owner));
  }

  lemma ExpireStepCommits(w: World, id: Uuid, f: RowFaults, now: nat, user: User)
    ensures Committed(ExpireRow(w, id, f, now), user, WalkOf(user)) <= Committed(w, user, WalkOf(user))
  {
    ExpireFrame(w, id, f.removeOk, now);
    ShrinkingCommits(w, ExpireRow(w, id, f, now), user, WalkOf(user));
  }

  lemma QuietStepCommits(w: World, s: Step, user: User, maxBytes: nat)
    requires Quiet(w, s, user)
    ensures Committed(Apply(w, s, maxBytes), user, WalkOf(user)) <= Committed(w, user, WalkOf(user))
  {
    match s
    case ChunkStep(q, f, now) => ChunkStepCommits(w, q, f, now, maxBytes, user);
    case FileStep(q, f, now) => FileStepCommits(w, q, f, now, user);
    case RecoverStep(id, rf, now) => RecoverStepCommits(w, id, rf, now, user);
    case CrashStep(key, kept) => CrashStepCommits(w, key, kept, user);
    case CancelStep(caller, id, removeOk, mark, now) => CancelStepCommits(w, caller, id, removeOk, mark, now, user);
    case ExpireStep(id, rf, now) => ExpireStepCommits(w, id, rf, now, user);
    case _ => ShrinkingCommits(w, Apply(w, s, maxBytes), user, WalkOf(user));
  }

  lemma {:induction false} QuietRunCommits(w: World, steps: seq<Step>, user: User, maxBytes: nat)
    requires QuietRun(w, steps, user, maxBytes)
    ensures Committed(Run(w, steps, maxBytes), user, WalkOf(user)) <= Committed(w, user, WalkOf(user))
    decreases steps
  {
    if steps != [] {
      QuietStepCommits(w, steps[0], user, maxBytes);
      QuietRunCommits(Apply(w, steps[0], maxBytes), steps[1..], user, maxBytes);
    }
  }

  /** The stronger bound that also counts what the active uploads may still add, in quiet runs: after an upload
      is admitted, and until the account opens another one or loses a commit, usage and declarations together stay
      within the limit plus the bytes that were staged at the admission. */
  lemma DeclarationsOverRuns(w: World, q: ChunkRequest, f: ChunkFaults, now: nat, steps: seq<Step>, maxBytes: nat, limit: nat)
    requires q.id !in w.jobs && limit < U64_MAX
    requires QuotaAllows(w, q.user, WalkOf(q.user), q.total, q.id, limit)
    requires Locate(q.folder, q.name).Some? ==>
               CommitsRename(w, q, PlaceOf(q.user, Locate(q.folder, q.name).value, q.id), f, now)
    requires QuietRun(Chunk(w, q, f, now, maxBytes).0, steps, q.user, maxBytes)
    ensures var end := Run(Chunk(w, q, f, now, maxBytes).0, steps, maxBytes);
            Used(end, WalkOf(q.user)) + Sum(Declarations(end, q.user)) <= limit + StagedBytes(w, q.user)
  {
    QuotaCheckIsExact(w, q.user, WalkOf(q.user), q.total, q.id, limit);
    ChunkStepCommits(w, q, f, now, maxBytes, q.user);
    QuietRunCommits(Chunk(w, q, f, now, maxBytes).0, steps, q.user, maxBytes);
  }

  /** Why that bound needs the commits: a last chunk that is renamed onto its target keeps usage and declarations
      within bounds exactly when the commit takes effect, or the target held at least as much before. */
  lemma CommitDecidesDeclarations(w: World, q: ChunkRequest, at: Place, f: ChunkFaults, now: nat, counted: Counted)
    requires q.id in w.jobs && Active(w.jobs[q.id], q.user) && w.jobs[q.id].total == Some(q.total)
    requires at.staging in w.files && |w.files[at.staging]| == q.total && at.target != at.staging
    requires !counted(at.staging) && counted(at.target) && f.hashOk && f.rename.Renamed?
    ensures Committed(Finish(w, q, at, f, now).0, q.user, counted) <= Committed(w, q.user, counted) <==>
            f.commit.TakesEffect() || q.total <= SizeAt(w, at.target, counted)
  {
    var w' := Finish(w, q, at, f, now).0;
    FinishFrame(w, q, at, f, now);
    CommittedMoves(w, w', q.user, counted, q.id, at);
    assert SizeAt(w', at.target, counted) == q.total;
    assert WeightOf(w, q.id, q.user) == q.total;
    assert WeightOf(w', q.id, q.user) == if f.commit.TakesEffect() then 0 else q.total;
  }
}
