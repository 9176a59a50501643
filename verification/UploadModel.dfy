/** The resumable upload protocol (server/src/handlers/upload.rs) as a step function.

    A world holds the two stores that can disagree: the job table and the files.
    Every handler is a function from a world, a request and the faults it meets
    to a new world and a response. */
module UploadModel {
  import opened Prelude
  import opened Text
  import opened Paths
  import opened StagingNames

  type User = nat

  datatype Status = Receiving | Staging | Completed | Failed

  datatype JobError = NoError | Io | QuotaError | Cancelled | Expired

  /** One row of `upload_jobs`. */
  datatype Job = Job(
    user: User,
    path: string,
    sizeBytes: nat,
    status: Status,
    received: nat,
    total: Option<nat>,
    checksum: Option<Digest>,
    lastError: JobError,
    updatedAt: nat)

  datatype FileKey = FileKey(user: User, path: RelPath)

  datatype World = World(jobs: map<Uuid, Job>, files: map<FileKey, Bytes>)

  const EMPTY := World(map[], map[])

  datatype UploadError = BadRequest | Forbidden | Conflict | QuotaExceeded | Unavailable | Internal

  datatype Response =
    | Rejected(error: UploadError)
    | ResumeFrom(offset: nat)
    | Continue(offset: nat)
    | Finished(received: nat)
    | Unknown
    | Stopped

  /** How the final rename ends. The fallback for a failed rename removes the target first. */
  datatype Rename = Renamed | RenameFailed(targetRemoved: bool)

  /** `body` is what arrives before the stream ends. */
  datatype ChunkRequest = ChunkRequest(
    user: User,
    id: Uuid,
    folder: string,
    name: string,
    offset: nat,
    total: nat,
    contentLength: Option<nat>,
    body: Bytes)

  /** Everything that can go wrong inside one chunk request.
      When the handler stops before its flush, only the first `flushed` bytes of the body reached the file. */
  datatype ChunkFaults = ChunkFaults(
    slot: bool,
    writeAccess: bool,
    parentOk: bool,
    quotaOk: bool,
    claim: Outcome,
    reconcile: Outcome,
    create: Outcome,
    openOk: bool,
    broken: bool,
    flushed: nat,
    flushOk: bool,
    syncOk: bool,
    commit: Outcome,
    hashOk: bool,
    rename: Rename,
    mark: Outcome)

  const NO_FAULTS := ChunkFaults(
    true, true, true, true, Done, Done, Done, true, false, 0, true, true, Done, true, Renamed, Done)

  // ------------------------------------------------------------ file access

  function TargetKey(user: User, path: RelPath): FileKey {
    FileKey(user, path)
  }

  function StagingKey(user: User, path: RelPath, id: Uuid): FileKey {
    FileKey(user, StagingPath(path, id))
  }

  /** Where one transfer lives: the stored path text, its target and its staging file. */
  datatype Place = Place(text: string, target: FileKey, staging: FileKey)

  function PlaceOf(user: User, path: RelPath, id: Uuid): Place {
    Place(StoredText(path), TargetKey(user, path), StagingKey(user, path, id))
  }

  /** The place recovery, cancel and expiry find by reading the stored text back. */
  function PlaceRead(user: User, text: string, id: Uuid): Option<Place> {
    var path := Parse(text);
    if path.Err? then None else Some(PlaceOf(user, path.value, id))
  }

  /** The length `metadata` reports, zero when there is no file. */
  function FileLen(w: World, key: FileKey): nat {
    if key in w.files then |w.files[key]| else 0
  }

  function Zeros(n: nat): Bytes {
    seq(n, _ => 0)
  }

  /** A write at an offset: past the end of the file it leaves NUL bytes in between; writing nothing changes nothing. */
  function WriteAt(content: Bytes, offset: nat, data: Bytes): Bytes {
    if data == [] then content
    else if offset <= |content| then
      content[..offset] + data + (if offset + |data| <= |content| then content[offset + |data|..] else [])
    else
      content + Zeros(offset - |content|) + data
  }

  function Remove<K, V>(m: map<K, V>, k: K): map<K, V> {
    m - {k}
  }

  function SetJob(w: World, id: Uuid, job: Job): World {
    w.(jobs := w.jobs[id := job])
  }

  function SetFile(w: World, key: FileKey, content: Bytes): World {
    w.(files := w.files[key := content])
  }

  function DropFile(w: World, key: FileKey): World {
    w.(files := Remove(w.files, key))
  }

  // ----------------------------------------------------------- chunk uploads

  /** The target path of an upload: a safe folder and the last component of the given name. */
  function Locate(folder: string, name: string): Option<RelPath> {
    var dir := Parse(folder);
    var file := FileNameOf(name);
    if dir.Err? || Trim(name) == "" || file.None? then None else Some(dir.value + [file.value])
  }

  datatype Admission = Answer(world: World, response: Response) | Proceed(world: World, received: nat)

  /** Finds or claims the job row and checks the request against it. */
  function Admit(w: World, q: ChunkRequest, at: Place, f: ChunkFaults, now: nat): Admission {
    var tooLong := q.contentLength.Some? && q.offset + q.contentLength.value > q.total;
    if q.id in w.jobs && w.jobs[q.id].user == q.user then
      var job := w.jobs[q.id];
      if job.status == Completed then Answer(w, Finished(job.received))
      else if job.path != at.text || job.total != Some(q.total) then Answer(w, Rejected(Conflict))
      else if tooLong then Answer(w, Rejected(BadRequest))
      else Proceed(w, job.received)
    else if !f.quotaOk then Answer(w, Rejected(QuotaExceeded))
    else if q.id in w.jobs then Answer(w, Rejected(Conflict))
    else
      var w' := if f.claim.TakesEffect()
                then SetJob(w, q.id, Job(q.user, at.text, 0, Receiving, 0, Some(q.total), None, NoError, now))
                else w;
      if !f.claim.Done? then Answer(w', Rejected(Internal))
      else if tooLong then Answer(w', Rejected(BadRequest))
      else Proceed(w', 0)
  }

  /** Makes the staging file and the confirmed offset agree: unconfirmed bytes are cut off,
      and an offset the file does not reach falls back to the file's length. */
  function Reconcile(w: World, id: Uuid, key: FileKey, received: nat, f: ChunkFaults, now: nat): Admission
    requires id in w.jobs
  {
    var len := FileLen(w, key);
    if len == received then Proceed(w, received)
    else
      var w' := if !f.reconcile.TakesEffect() then w
                else if len > received then SetFile(w, key, w.files[key][..received])
                else SetJob(w, id, w.jobs[id].(received := len, sizeBytes := len, updatedAt := now));
      if !f.reconcile.Done? then Answer(w', Rejected(Internal))
      else Proceed(w', Min(len, received))
  }

  /** Everything that happens before the first body byte is written. */
  function Prepare(w: World, q: ChunkRequest, at: Place, f: ChunkFaults, now: nat): Admission {
    var admitted := Admit(w, q, at, f, now);
    if admitted.Answer? then admitted
    else
      var key := at.staging;
      var ready := Reconcile(admitted.world, q.id, key, admitted.received, f, now);
      if ready.Answer? then ready
      else
        var w' := if key !in ready.world.files && f.create.TakesEffect()
                  then SetFile(ready.world, key, []) else ready.world;
        if key !in ready.world.files && !f.create.Done? then Answer(w', Rejected(Internal))
        else if q.offset != ready.received then Answer(w', ResumeFrom(ready.received))
        else if !f.openOk then Answer(w', Rejected(Internal))
        else Proceed(w', ready.received)
  }

  /** The staging file is complete: hash it, rename it onto the target, commit the row. */
  function Finish(w: World, q: ChunkRequest, at: Place, f: ChunkFaults, now: nat): (World, Response)
    requires q.id in w.jobs && at.staging in w.files
  {
    var key := at.staging;
    var content := w.files[key];
    if !f.hashOk then (w, Rejected(Internal))
    else if f.rename.RenameFailed? then
      var w1 := if f.rename.targetRemoved then DropFile(w, at.target) else w;
      var w2 := if f.mark.TakesEffect()
                then SetJob(w1, q.id, w1.jobs[q.id].(status := Failed, lastError := Io, updatedAt := now)) else w1;
      (w2, Rejected(Internal))
    else
      var w1 := SetFile(DropFile(w, key), at.target, content);
      var w2 := if f.commit.TakesEffect()
                then SetJob(w1, q.id, w1.jobs[q.id].(received := q.total, sizeBytes := q.total, status := Completed,
                                                     checksum := Some(Sha256(content)), lastError := NoError,
                                                     updatedAt := now)) else w1;
      (w2, if f.commit.Done? then Finished(q.total) else Rejected(Internal))
  }

  /** Writes the body at the agreed offset and confirms it. */
  function Receive(w: World, q: ChunkRequest, at: Place, received: nat, f: ChunkFaults, now: nat): (World, Response)
    requires q.id in w.jobs && at.staging in w.files
  {
    var key := at.staging;
    var before := w.files[key];
    if f.broken || (q.contentLength.Some? && q.contentLength.value != |q.body|) then
      (SetFile(w, key, WriteAt(before, q.offset, q.body[..Min(f.flushed, |q.body|)])), Rejected(BadRequest))
    else if !f.flushOk then
      (SetFile(w, key, WriteAt(before, q.offset, q.body[..Min(f.flushed, |q.body|)])), Rejected(Internal))
    else
      var w1 := SetFile(w, key, WriteAt(before, q.offset, q.body));
      var sum := received + |q.body|;
      if sum >= q.total && !f.syncOk then (w1, Rejected(Internal))
      else if sum > q.total then (w1, Rejected(BadRequest))
      else if sum == q.total then Finish(w1, q, at, f, now)
      else
        var w2 := if f.commit.TakesEffect()
                  then SetJob(w1, q.id, w1.jobs[q.id].(received := sum, sizeBytes := sum, status := Receiving,
                                                       lastError := NoError, updatedAt := now)) else w1;
        (w2, if f.commit.Done? then Continue(sum) else Rejected(Internal))
  }

  /** One chunk request whose place is known. */
  function ChunkAt(w: World, q: ChunkRequest, at: Place, f: ChunkFaults, now: nat): (World, Response) {
    var ready := Prepare(w, q, at, f, now);
    if ready.Answer? then (ready.world, ready.response)
    else Receive(ready.world, q, at, ready.received, f, now)
  }

  /** `upload_chunk`. */
  function Chunk(w: World, q: ChunkRequest, f: ChunkFaults, now: nat, maxBytes: nat): (World, Response) {
    var path := Locate(q.folder, q.name);
    if !f.slot then (w, Rejected(Unavailable))
    else if Parse(q.folder).Err? then (w, Rejected(BadRequest))
    else if !f.writeAccess then (w, Rejected(Forbidden))
    else if path.None? then (w, Rejected(BadRequest))
    else if !f.parentOk then (w, Rejected(Internal))
    else if q.total > maxBytes then (w, Rejected(BadRequest))
    else ChunkAt(w, q, PlaceOf(q.user, path.value, q.id), f, now)
  }

  // ------------------------------------------------- whole-file (multipart) uploads

  datatype FileRequest = FileRequest(user: User, id: Uuid, folder: string, name: string, body: Bytes)

  datatype FileFaults = FileFaults(
    writeAccess: bool,
    parentOk: bool,
    claim: Outcome,
    create: Outcome,
    broken: bool,
    writeFailed: bool,
    flushed: nat,
    flushOk: bool,
    removeOk: bool,
    stage: Outcome,
    quotaOk: bool,
    rename: Rename,
    mark: Outcome,
    commit: Outcome)

  function MarkFailed(w: World, id: Uuid, error: JobError, mark: Outcome, now: nat): World
    requires id in w.jobs
  {
    if mark.TakesEffect()
    then SetJob(w, id, w.jobs[id].(status := Failed, lastError := error, updatedAt := now)) else w
  }

  function MaybeDrop(w: World, key: FileKey, removeOk: bool): World {
    if removeOk then DropFile(w, key) else w
  }

  /** Claims the row for a whole-file upload; an existing row keeps its counters. */
  function ClaimFile(w: World, q: FileRequest, text: string, now: nat): World {
    SetJob(w, q.id,
      if q.id in w.jobs then w.jobs[q.id].(path := text, status := Receiving, updatedAt := now)
      else Job(q.user, text, 0, Receiving, 0, None, None, NoError, now))
  }

  /** After the body reached the staging file in full. */
  function PlaceFile(w: World, q: FileRequest, at: Place, f: FileFaults, now: nat): (World, Response)
    requires q.id in w.jobs && at.staging in w.files
  {
    var key := at.staging;
    var w1 := if f.stage.TakesEffect()
              then SetJob(w, q.id, w.jobs[q.id].(sizeBytes := |q.body|, status := Staging, updatedAt := now)) else w;
    if !f.stage.Done? then (w1, Rejected(Internal))
    else if !f.quotaOk then
      (MarkFailed(MaybeDrop(w1, key, f.removeOk), q.id, QuotaError, f.mark, now), Rejected(QuotaExceeded))
    else if f.rename.RenameFailed? then
      var w2 := if f.rename.targetRemoved then DropFile(w1, at.target) else w1;
      (MarkFailed(MaybeDrop(w2, key, f.removeOk), q.id, Io, f.mark, now), Rejected(Internal))
    else
      var w2 := SetFile(DropFile(w1, key), at.target, w1.files[key]);
      var w3 := if f.commit.TakesEffect()
                then SetJob(w2, q.id, w2.jobs[q.id].(status := Completed, received := |q.body|, updatedAt := now)) else w2;
      (w3, if f.commit.Done? then Finished(|q.body|) else Rejected(Internal))
  }

  /** Claims the row, streams the body to the staging file, and places it. */
  function StageFile(w: World, q: FileRequest, at: Place, f: FileFaults, now: nat): (World, Response) {
    var w1 := if f.claim.TakesEffect() then ClaimFile(w, q, at.text, now) else w;
    if !f.claim.Done? then (w1, Rejected(Internal))
    else
      var w2 := if f.create.TakesEffect() then SetFile(w1, at.staging, []) else w1;
      if !f.create.Done? then (w2, Rejected(Internal))
      else
        var partial := SetFile(w2, at.staging, q.body[..Min(f.flushed, |q.body|)]);
        if f.writeFailed then (MaybeDrop(partial, at.staging, f.removeOk), Rejected(Internal))
        else if f.broken then (partial, Rejected(BadRequest))
        else if !f.flushOk then (partial, Rejected(Internal))
        else PlaceFile(SetFile(w2, at.staging, q.body), q, at, f, now)
  }

  /** One `file` field of `upload_file`. */
  function WholeFile(w: World, q: FileRequest, f: FileFaults, now: nat): (World, Response) {
    if q.id in w.jobs && w.jobs[q.id].user == q.user && w.jobs[q.id].status == Completed then
      (w, Finished(w.jobs[q.id].sizeBytes))
    else
      var dir := Parse(q.folder);
      var file := FileNameOf(q.name);
      if dir.Err? then (w, Rejected(BadRequest))
      else if !f.writeAccess then (w, Rejected(Forbidden))
      else if file.None? then (w, Rejected(BadRequest))
      else if !f.parentOk then (w, Rejected(Internal))
      else if q.id in w.jobs && w.jobs[q.id].user != q.user then (w, Rejected(Conflict))
      else
        StageFile(w, q, PlaceOf(q.user, dir.value + [file.value], q.id), f, now)
  }

  /** One field of a multipart request; a text that cannot be read is `None`. */
  datatype Field =
    | PathField(text: Option<string>)
    | IdField(text: Option<string>)
    | FileField(name: Option<string>, body: Bytes, faults: FileFaults, now: nat)
    | OtherField
    | BrokenField

  /** What the fields before told. */
  datatype FormState = FormState(path: Option<string>, id: Option<Uuid>, result: Option<nat>)

  const NO_FIELDS := FormState(None, None, None)

  function RequestOf(user: User, form: FormState, field: Field): FileRequest
    requires form.id.Some? && field.FileField?
  {
    FileRequest(user, form.id.value, if form.path.Some? then form.path.value else "",
                if field.name.Some? then field.name.value else "file.bin", field.body)
  }

  predicate AlreadyDone(w: World, user: User, id: Uuid) {
    id in w.jobs && w.jobs[id].user == user && w.jobs[id].status == Completed
  }

  /** `upload_file`: fields are taken one by one; the first that fails, or a file of a finished upload, ends the request. */
  function Multipart(w: World, user: User, fields: seq<Field>, form: FormState): (World, Response)
    decreases fields
  {
    if fields == [] then (w, if form.result.Some? then Finished(form.result.value) else Rejected(BadRequest))
    else
      match fields[0]
      case PathField(text) =>
        if text.None? then (w, Rejected(BadRequest)) else Multipart(w, user, fields[1..], form.(path := text))
      case IdField(text) =>
        if text.None? || ParseUuid(Trim(text.value)).None? then (w, Rejected(BadRequest))
        else Multipart(w, user, fields[1..], form.(id := ParseUuid(Trim(text.value))))
      case OtherField => Multipart(w, user, fields[1..], form)
      case BrokenField => (w, Rejected(BadRequest))
      case FileField(_, _, f, now) =>
        if form.id.None? then (w, Rejected(BadRequest))
        else
          var (w', r) := WholeFile(w, RequestOf(user, form, fields[0]), f, now);
          if !r.Finished? || AlreadyDone(w, user, form.id.value) then (w', r)
          else Multipart(w', user, fields[1..], form.(result := Some(r.received)))
  }

  // --------------------------------------------- cancel, recovery, cleanup, expiry

  /** `cancel_upload`. */
  function Cancel(w: World, user: User, id: Uuid, removeOk: bool, mark: Outcome, now: nat): (World, Response) {
    if id !in w.jobs || w.jobs[id].user != user then (w, Unknown)
    else if w.jobs[id].status == Completed then (w, Finished(w.jobs[id].received))
    else
      var at := PlaceRead(user, w.jobs[id].path, id);
      if at.None? then (w, Rejected(BadRequest))
      else
        (MarkFailed(MaybeDrop(w, at.value.staging, removeOk), id, Cancelled, mark, now),
         if mark.Done? then Stopped else Rejected(Internal))
  }

  predicate Unfinished(status: Status) {
    status == Receiving || status == Staging
  }

  function UnfinishedRows(w: World): set<Uuid> {
    set id | id in w.jobs && Unfinished(w.jobs[id].status)
  }

  /** A query returned these rows, each once, in some order. */
  ghost predicate Selects(rows: seq<Fetched>, ids: set<Uuid>) {
    && (forall i, j :: 0 <= i < j < |rows| ==> rows[i].id != rows[j].id)
    && (forall i :: 0 <= i < |rows| ==> rows[i].id in ids)
    && (forall id :: id in ids ==> exists i :: 0 <= i < |rows| && rows[i].id == id)
  }

  /** What can go wrong while one fetched row is worked on. A failing removal is ignored, a failing update
      ends the whole pass. */
  datatype RowFaults = RowFaults(removeOk: bool, update: Outcome)

  /** A row as a query returned it, with what will happen to it. */
  datatype Fetched = Fetched(id: Uuid, faults: RowFaults)

  /** One row of `recover_upload_jobs` whose update takes effect. */
  function RecoveredRow(w: World, id: Uuid, removeOk: bool, now: nat): World {
    if id !in w.jobs || !Unfinished(w.jobs[id].status) then w
    else
      var job := w.jobs[id];
      var at := PlaceRead(job.user, job.path, id);
      if at.None? then SetJob(w, id, job.(status := Failed, updatedAt := now))
      else
        var target := at.value.target;
        var key := at.value.staging;
        if target in w.files then
          SetJob(w, id, job.(sizeBytes := |w.files[target]|, received := |w.files[target]|, status := Completed, updatedAt := now))
        else if FileLen(w, key) == job.received && job.received > 0 then
          SetJob(w, id, job.(status := Receiving, updatedAt := now))
        else
          SetJob(MaybeDrop(w, key, removeOk), id, job.(received := 0, sizeBytes := 0, status := Receiving, updatedAt := now))
  }

  /** An update that does not take effect leaves the row, but a removal before it has happened. */
  function UnlessLost(w: World, w': World, update: Outcome): World {
    if update.TakesEffect() then w' else w'.(jobs := w.jobs)
  }

  function RecoverRow(w: World, id: Uuid, f: RowFaults, now: nat): World {
    UnlessLost(w, RecoveredRow(w, id, f.removeOk, now), f.update)
  }

  /** `recover_upload_jobs` over the rows in the order the query returned them, and whether it succeeded. */
  function Recover(w: World, rows: seq<Fetched>, now: nat): (World, bool)
    decreases rows
  {
    if rows == [] then (w, true)
    else
      var w' := RecoverRow(w, rows[0].id, rows[0].faults, now);
      if !rows[0].faults.update.Done? then (w', false) else Recover(w', rows[1..], now)
  }

  /** The sessions whose staging files a cleanup keeps. A failing query leaves none. */
  function LiveSessions(w: World, queryOk: bool, ttl: nat, now: nat): set<Uuid> {
    if queryOk then set id | id in w.jobs && Unfinished(w.jobs[id].status) && w.jobs[id].updatedAt + ttl > now else {}
  }

  predicate KeepsOnCleanup(key: FileKey, live: set<Uuid>) {
    var name := FileName(key.path);
    IsStagingName(name) ==> StagingUploadId(name).Some? && StagingUploadId(name).value in live
  }

  /** `cleanup_stale_uploads`: of the marker-named files only those of live sessions stay. The files in `spared`
      are those the walk did not reach or could not remove. */
  function Cleanup(w: World, queryOk: bool, spared: set<FileKey>, ttl: nat, now: nat): World {
    var live := LiveSessions(w, queryOk, ttl, now);
    w.(files := map key | key in w.files && (KeepsOnCleanup(key, live) || key in spared) :: w.files[key])
  }

  /** One expired row of `sweep_expired_uploads` whose update takes effect. */
  function ExpiredRow(w: World, id: Uuid, removeOk: bool, now: nat): World {
    if id !in w.jobs then w
    else
      var job := w.jobs[id];
      var at := PlaceRead(job.user, job.path, id);
      var w1 := if at.Some? then MaybeDrop(w, at.value.staging, removeOk) else w;
      SetJob(w1, id, job.(status := Failed, lastError := Expired, updatedAt := now))
  }

  function ExpireRow(w: World, id: Uuid, f: RowFaults, now: nat): World {
    UnlessLost(w, ExpiredRow(w, id, f.removeOk, now), f.update)
  }

  function Expire(w: World, rows: seq<Fetched>, now: nat): (World, bool)
    decreases rows
  {
    if rows == [] then (w, true)
    else
      var w' := ExpireRow(w, rows[0].id, rows[0].faults, now);
      if !rows[0].faults.update.Done? then (w', false) else Expire(w', rows[1..], now)
  }

  /** Finished rows are pruned once they are older than the session lifetime. */
  function Prune(w: World, ttl: nat, now: nat): World {
    w.(jobs := map id | id in w.jobs && (Unfinished(w.jobs[id].status) || w.jobs[id].updatedAt + ttl > now) :: w.jobs[id])
  }

  /** The rows the expiry query selects. */
  function ExpiredRows(w: World, ttl: nat, now: nat): set<Uuid> {
    set id | id in w.jobs && Unfinished(w.jobs[id].status) && w.jobs[id].updatedAt + ttl <= now
  }

  /** `sweep_expired_uploads` over the fetched rows; it answers how many it expired, unless it failed. */
  function Sweep(w: World, rows: seq<Fetched>, prune: Outcome, ttl: nat, now: nat): (World, Option<nat>) {
    var (w', ok) := Expire(w, rows, now);
    if !ok then (w', None)
    else (if prune.TakesEffect() then Prune(w', ttl, now) else w', if prune.Done? then Some(|rows|) else None)
  }

  // -------------------------------------------------------------------- runs

  /** One step of a run. A sweep or a recovery is a series of row steps, so it may be
      interleaved with requests and may work on rows that changed since its query. */
  datatype Step =
    | ChunkStep(q: ChunkRequest, f: ChunkFaults, now: nat)
    | FileStep(fq: FileRequest, ff: FileFaults, now: nat)
    | CancelStep(user: User, id: Uuid, removeOk: bool, mark: Outcome, now: nat)
    | RecoverStep(id: Uuid, faults: RowFaults, now: nat)
    | ExpireStep(id: Uuid, faults: RowFaults, now: nat)
    | PruneStep(ttl: nat, now: nat)
    | CleanupStep(queryOk: bool, spared: set<FileKey>, ttl: nat, now: nat)
    | CrashStep(key: FileKey, kept: Option<nat>)
    | OtherWrite(key: FileKey, content: Option<Bytes>)

  /** A crash may leave a staging file shorter than what was written to it, or lose it. */
  function Crash(w: World, key: FileKey, kept: Option<nat>): World {
    if key in w.files && IsStagingName(FileName(key.path)) then
      if kept.None? then DropFile(w, key)
      else SetFile(w, key, w.files[key][..Min(kept.value, |w.files[key]|)])
    else w
  }

  function Apply(w: World, s: Step, maxBytes: nat): World {
    match s
    case ChunkStep(q, f, now) => Chunk(w, q, f, now, maxBytes).0
    case FileStep(q, f, now) => WholeFile(w, q, f, now).0
    case CancelStep(user, id, removeOk, mark, now) => Cancel(w, user, id, removeOk, mark, now).0
    case RecoverStep(id, f, now) => RecoverRow(w, id, f, now)
    case ExpireStep(id, f, now) => ExpireRow(w, id, f, now)
    case PruneStep(ttl, now) => Prune(w, ttl, now)
    case CleanupStep(queryOk, spared, ttl, now) => Cleanup(w, queryOk, spared, ttl, now)
    case CrashStep(key, kept) => Crash(w, key, kept)
    case OtherWrite(key, content) => if content.Some? then SetFile(w, key, content.value) else DropFile(w, key)
  }

  function Run(w: World, steps: seq<Step>, maxBytes: nat): World
    decreases steps
  {
    if steps == [] then w else Run(Apply(w, steps[0], maxBytes), steps[1..], maxBytes)
  }

  lemma RunGoesOn(w: World, s: Step, rest: seq<Step>, maxBytes: nat)
    ensures Run(w, [s] + rest, maxBytes) == Run(Apply(w, s, maxBytes), rest, maxBytes)
  {
    assert ([s] + rest)[1..] == rest;
  }

  /** A multipart request is a run of single file uploads, so what holds of every run holds of it. */
  lemma {:induction false} MultipartIsRun(w: World, user: User, fields: seq<Field>, form: FormState, maxBytes: nat) returns (steps: seq<Step>)
    ensures Multipart(w, user, fields, form).0 == Run(w, steps, maxBytes)
    ensures forall i :: 0 <= i < |steps| ==> steps[i].FileStep? && steps[i].fq.user == user
    decreases fields
  {
    steps := [];
    if fields != [] {
      match fields[0]
      case PathField(text) =>
        if text.Some? { steps := MultipartIsRun(w, user, fields[1..], form.(path := text), maxBytes); }
      case IdField(text) =>
        if text.Some? && ParseUuid(Trim(text.value)).Some? {
          steps := MultipartIsRun(w, user, fields[1..], form.(id := ParseUuid(Trim(text.value))), maxBytes);
        }
      case OtherField => steps := MultipartIsRun(w, user, fields[1..], form, maxBytes);
      case BrokenField =>
      case FileField(_, _, f, now) =>
        if form.id.Some? {
          var q := RequestOf(user, form, fields[0]);
          var (w', r) := WholeFile(w, q, f, now);
          var rest: seq<Step> := [];
          if r.Finished? && !AlreadyDone(w, user, form.id.value) {
            rest := MultipartIsRun(w', user, fields[1..], form.(result := Some(r.received)), maxBytes);
          }
          steps := [FileStep(q, f, now)] + rest;
          RunGoesOn(w, FileStep(q, f, now), rest, maxBytes);
        }
    }
  }
}
