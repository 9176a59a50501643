/** A job that becomes completed has its whole source at its target. */
module UploadCompletion {
  import opened Prelude
  import opened Paths
  import opened StagingNames
  import opened UploadModel
  import opened UploadNoHoles

  /** Outside one row and two files, the worlds agree. */
  ghost predicate SameElsewhere(a: World, b: World, id: Uuid, at: Place) {
    && (forall i :: i != id ==> (i in a.jobs <==> i in b.jobs) && (i in a.jobs ==> a.jobs[i] == b.jobs[i]))
    && (forall k :: k != at.target && k != at.staging ==>
          (k in a.files <==> k in b.files) && (k in a.files ==> a.files[k] == b.files[k]))
  }

  /** A row of another account stays as it is, and a new row belongs to the caller. */
  predicate RespectsOwner(a: World, b: World, user: User, id: Uuid) {
    if id in a.jobs && a.jobs[id].user != user then id in b.jobs && b.jobs[id] == a.jobs[id]
    else id in b.jobs ==> b.jobs[id].user == user
  }

  /** Before the body only one row changes. */
  lemma PrepareJobs(w: World, q: ChunkRequest, at: Place, f: ChunkFaults, now: nat)
    ensures var jobs := Prepare(w, q, at, f, now).world.jobs;
            jobs == w.jobs || (q.id in jobs && jobs == w.jobs[q.id := jobs[q.id]])
    ensures RespectsOwner(w, Prepare(w, q, at, f, now).world, q.user, q.id)
    ensures Prepare(w, q, at, f, now).Proceed? ==> !(q.id in w.jobs && w.jobs[q.id].user != q.user)
  {
  }

  lemma PrepareFrame(w: World, q: ChunkRequest, at: Place, f: ChunkFaults, now: nat)
    ensures SameElsewhere(w, Prepare(w, q, at, f, now).world, q.id, at)
    ensures RespectsOwner(w, Prepare(w, q, at, f, now).world, q.user, q.id)
    ensures Prepare(w, q, at, f, now).Proceed? ==> !(q.id in w.jobs && w.jobs[q.id].user != q.user)
  {
    PrepareFiles(w, q, at, f, now);
    PrepareJobs(w, q, at, f, now);
    OneRowAndFile(w, Prepare(w, q, at, f, now).world, q.id, at);
  }

  lemma OneRowAndFile(a: World, b: World, id: Uuid, at: Place)
    requires b.jobs == a.jobs || (id in b.jobs && b.jobs == a.jobs[id := b.jobs[id]])
    requires b.files == a.files || (at.staging in b.files && b.files == a.files[at.staging := b.files[at.staging]])
    ensures SameElsewhere(a, b, id, at)
  {
  }

  /** A chunk request touches its own row and its own two files only, and never another account's row. */
  lemma ChunkFrame(w: World, q: ChunkRequest, at: Place, f: ChunkFaults, now: nat)
    ensures SameElsewhere(w, ChunkAt(w, q, at, f, now).0, q.id, at)
    ensures RespectsOwner(w, ChunkAt(w, q, at, f, now).0, q.user, q.id)
  {
    PrepareFrame(w, q, at, f, now);
    var p := Prepare(w, q, at, f, now);
    if p.Proceed? {
      PrepareIsExact(w, q, at, f, now);
      ReceiveFrame(p.world, q, at, p.received, f, now);
    }
  }

  lemma FinishFrame(w: World, q: ChunkRequest, at: Place, f: ChunkFaults, now: nat)
    requires q.id in w.jobs && at.staging in w.files
    ensures var w' := Finish(w, q, at, f, now).0;
            && SameElsewhere(w, w', q.id, at)
            && q.id in w'.jobs && w'.jobs[q.id].user == w.jobs[q.id].user
  {
  }

  lemma ReceiveFrame(w: World, q: ChunkRequest, at: Place, received: nat, f: ChunkFaults, now: nat)
    requires q.id in w.jobs && at.staging in w.files
    ensures var w' := Receive(w, q, at, received, f, now).0;
            && SameElsewhere(w, w', q.id, at)
            && q.id in w'.jobs && w'.jobs[q.id].user == w.jobs[q.id].user
  {
    FinishFrame(SetFile(w, at.staging, WriteAt(w.files[at.staging], q.offset, q.body)), q, at, f, now);
  }

  lemma FailedFileFrame(w: World, id: Uuid, at: Place, removed: bool, removeOk: bool, error: JobError, mark: Outcome, now: nat)
    requires id in w.jobs
    ensures var w' := MarkFailed(MaybeDrop(if removed then DropFile(w, at.target) else w, at.staging, removeOk), id, error, mark, now);
            && SameElsewhere(w, w', id, at)
            && id in w'.jobs && w'.jobs[id].user == w.jobs[id].user
  {
  }

  lemma PlaceFileFrame(w: World, q: FileRequest, at: Place, f: FileFaults, now: nat)
    requires q.id in w.jobs && at.staging in w.files
    ensures var w' := PlaceFile(w, q, at, f, now).0;
            && SameElsewhere(w, w', q.id, at)
            && q.id in w'.jobs && w'.jobs[q.id].user == w.jobs[q.id].user
  {
    var staged := w.jobs[q.id].(sizeBytes := |q.body|, status := Staging, updatedAt := now);
    var w1 := if f.stage.TakesEffect() then SetJob(w, q.id, staged) else w;
    FailedFileFrame(w1, q.id, at, false, f.removeOk, QuotaError, f.mark, now);
    FailedFileFrame(w1, q.id, at, f.rename.RenameFailed? && f.rename.targetRemoved, f.removeOk, Io, f.mark, now);
  }

  lemma FileFrame(w: World, q: FileRequest, at: Place, f: FileFaults, now: nat)
    requires !(q.id in w.jobs && w.jobs[q.id].user != q.user)
    ensures SameElsewhere(w, StageFile(w, q, at, f, now).0, q.id, at)
    ensures RespectsOwner(w, StageFile(w, q, at, f, now).0, q.user, q.id)
  {
    if f.claim.Done? && f.create.Done? {
      var w2 := SetFile(ClaimFile(w, q, at.text, now), at.staging, []);
      PlaceFileFrame(SetFile(w2, at.staging, q.body), q, at, f, now);
    }
  }

  /** One transfer: an account, an id, the place it is sent to and the file it carries. */
  datatype Transfer = Transfer(user: User, id: Uuid, at: Place, source: Bytes)

  /** What holds of a transfer's own row. */
  predicate RowOk(w: World, job: Job, tr: Transfer) {
    && job.path == tr.at.text
    && (job.total.Some? ==> job.total.value == |tr.source|)
    && (job.checksum.Some? ==> job.checksum.value == Sha256(tr.source))
    && (job.status == Completed ==>
          tr.at.target in w.files && job.received == |tr.source| == job.sizeBytes)
  }

  /** The target is absent or complete, and a completed row is never wrong about it. */
  predicate WellPlaced(w: World, tr: Transfer) {
    && (tr.at.target in w.files ==> w.files[tr.at.target] == tr.source)
    && (tr.at.staging in w.files ==> w.files[tr.at.staging] <= tr.source)
    && (tr.id in w.jobs && w.jobs[tr.id].user == tr.user ==> RowOk(w, w.jobs[tr.id], tr))
  }

  predicate Disjoint(at: Place, tr: Transfer) {
    && at.target != tr.at.target && at.target != tr.at.staging
    && at.staging != tr.at.target && at.staging != tr.at.staging
  }

  /** Steps of other transfers leave this one alone. */
  lemma ElsewhereKeeps(a: World, b: World, user: User, id: Uuid, at: Place, tr: Transfer)
    requires WellPlaced(a, tr) && Disjoint(at, tr) && SameElsewhere(a, b, id, at)
    requires id == tr.id ==> user != tr.user && RespectsOwner(a, b, user, id)
    ensures WellPlaced(b, tr)
  {
  }

  /** What preparing a chunk may do to the row: nothing, a new row, or a smaller confirmed offset. */
  predicate PreparedRow(w: World, w': World, q: ChunkRequest, at: Place) {
    q.id in w'.jobs ==>
      var job := w'.jobs[q.id];
      || (q.id in w.jobs && job == w.jobs[q.id])
      || (q.id in w.jobs && w.jobs[q.id].status != Completed
          && job == w.jobs[q.id].(received := job.received, sizeBytes := job.received, updatedAt := job.updatedAt))
      || (q.id !in w.jobs
          && job == Job(q.user, at.text, job.received, Receiving, job.received, Some(q.total), None, NoError, job.updatedAt))
  }

  lemma PrepareRow(w: World, q: ChunkRequest, at: Place, f: ChunkFaults, now: nat)
    ensures PreparedRow(w, Prepare(w, q, at, f, now).world, q, at)
  {
  }

  lemma PreparedKeeps(w: World, w': World, q: ChunkRequest, tr: Transfer)
    requires WellPlaced(w, tr) && q.user == tr.user && q.id == tr.id && q.total == |tr.source|
    requires tr.at.target != tr.at.staging
    requires PreparedRow(w, w', q, tr.at)
    requires || w'.files == w.files
             || (tr.at.staging in w'.files && w'.files == w.files[tr.at.staging := w'.files[tr.at.staging]]
                 && w'.files[tr.at.staging] <= (if tr.at.staging in w.files then w.files[tr.at.staging] else []))
    ensures WellPlaced(w', tr)
  {
  }

  lemma OwnPrepare(w: World, q: ChunkRequest, f: ChunkFaults, now: nat, tr: Transfer)
    requires WellPlaced(w, tr) && q.user == tr.user && q.id == tr.id && q.total == |tr.source|
    requires tr.at.target != tr.at.staging
    ensures WellPlaced(Prepare(w, q, tr.at, f, now).world, tr)
  {
    PrepareFiles(w, q, tr.at, f, now);
    PrepareRow(w, q, tr.at, f, now);
    PreparedKeeps(w, Prepare(w, q, tr.at, f, now).world, q, tr);
  }

  lemma OwnFinish(w: World, q: ChunkRequest, f: ChunkFaults, now: nat, tr: Transfer)
    requires WellPlaced(w, tr) && q.id == tr.id && q.total == |tr.source|
    requires q.id in w.jobs && w.jobs[q.id].user == tr.user
    requires tr.at.target != tr.at.staging
    requires tr.at.staging in w.files && w.files[tr.at.staging] == tr.source
    requires w.jobs[q.id].status != Completed
    ensures WellPlaced(Finish(w, q, tr.at, f, now).0, tr)
  {
  }

  lemma OwnReceive(w: World, q: ChunkRequest, received: nat, f: ChunkFaults, now: nat, tr: Transfer)
    requires WellPlaced(w, tr) && q.id == tr.id && q.total == |tr.source|
    requires q.id in w.jobs && w.jobs[q.id].user == tr.user && w.jobs[q.id].status != Completed
    requires tr.at.target != tr.at.staging && tr.at.staging in w.files
    requires q.offset == received == |w.files[tr.at.staging]| && SliceAt(tr.source, q.offset, q.body)
    ensures WellPlaced(Receive(w, q, tr.at, received, f, now).0, tr)
  {
    var staged := w.files[tr.at.staging];
    AppendKeepsPrefix(tr.source, staged, q.body, Min(f.flushed, |q.body|));
    var full := SetFile(w, tr.at.staging, WriteAt(staged, q.offset, q.body));
    if received + |q.body| == q.total {
      assert full.files[tr.at.staging] == tr.source;
      OwnFinish(full, q, f, now, tr);
    }
  }

  lemma OwnChunk(w: World, q: ChunkRequest, f: ChunkFaults, now: nat, tr: Transfer)
    requires WellPlaced(w, tr) && q.user == tr.user && q.id == tr.id && q.total == |tr.source|
    requires tr.at.target != tr.at.staging && SliceAt(tr.source, q.offset, q.body)
    ensures WellPlaced(ChunkAt(w, q, tr.at, f, now).0, tr)
  {
    OwnPrepare(w, q, f, now, tr);
    var p := Prepare(w, q, tr.at, f, now);
    if p.Proceed? {
      PrepareIsExact(w, q, tr.at, f, now);
      PrepareIsUnfinished(w, q, tr.at, f, now);
      OwnReceive(p.world, q, p.received, f, now, tr);
    }
  }

  lemma PrepareIsUnfinished(w: World, q: ChunkRequest, at: Place, f: ChunkFaults, now: nat)
    requires Prepare(w, q, at, f, now).Proceed?
    ensures var p := Prepare(w, q, at, f, now);
            q.id in p.world.jobs && p.world.jobs[q.id].status != Completed && p.world.jobs[q.id].user == q.user
  {
  }

  /** A failed row and at most a missing target leave the transfer well placed. */
  lemma FailedFileKeeps(w: World, q: FileRequest, f: FileFaults, error: JobError, now: nat, tr: Transfer)
    requires WellPlaced(w, tr) && q.id == tr.id && q.id in w.jobs && w.jobs[q.id].status != Completed
    ensures WellPlaced(MarkFailed(MaybeDrop(w, tr.at.staging, f.removeOk), q.id, error, f.mark, now), tr)
  {
  }

  lemma OwnPlaceFile(w: World, q: FileRequest, f: FileFaults, now: nat, tr: Transfer)
    requires WellPlaced(w, tr) && q.user == tr.user && q.id == tr.id && q.body == tr.source
    requires q.id in w.jobs && w.jobs[q.id].user == tr.user && w.jobs[q.id].status != Completed
    requires tr.at.target != tr.at.staging && tr.at.staging in w.files && w.files[tr.at.staging] == tr.source
    ensures WellPlaced(PlaceFile(w, q, tr.at, f, now).0, tr)
  {
    var w1 := if f.stage.TakesEffect()
              then SetJob(w, q.id, w.jobs[q.id].(sizeBytes := |q.body|, status := Staging, updatedAt := now)) else w;
    assert WellPlaced(w1, tr);
    if f.stage.Done? && !f.quotaOk {
      FailedFileKeeps(w1, q, f, QuotaError, now, tr);
    } else if f.stage.Done? && f.rename.RenameFailed? {
      var w2 := if f.rename.targetRemoved then DropFile(w1, tr.at.target) else w1;
      FailedFileKeeps(w2, q, f, Io, now, tr);
    }
  }

  lemma OwnFile(w: World, q: FileRequest, f: FileFaults, now: nat, tr: Transfer)
    requires WellPlaced(w, tr) && q.user == tr.user && q.id == tr.id && q.body <= tr.source
    requires !f.broken && !f.writeFailed && f.flushOk ==> q.body == tr.source
    requires tr.at.target != tr.at.staging
    requires q.id in w.jobs ==> w.jobs[q.id].user == tr.user && w.jobs[q.id].status != Completed
    ensures WellPlaced(StageFile(w, q, tr.at, f, now).0, tr)
  {
    if f.claim.Done? && f.create.Done? {
      var w1 := ClaimFile(w, q, tr.at.text, now);
      assert WellPlaced(w1, tr);
      var w2 := SetFile(w1, tr.at.staging, []);
      var w3 := SetFile(w2, tr.at.staging, q.body);
      assert WellPlaced(w3, tr);
      if q.body == tr.source {
        OwnPlaceFile(w3, q, f, now, tr);
      }
    }
  }

  /** The stored text gives this place, or none. */
  predicate NeverMisread(tr: Transfer) {
    var read := PlaceRead(tr.user, tr.at.text, tr.id);
    read.Some? ==> read.value == tr.at
  }

  /** Recovery of the transfer's own row, including the crash between rename and commit. */
  lemma OwnRecover(w: World, removeOk: bool, now: nat, tr: Transfer)
    requires WellPlaced(w, tr) && tr.id in w.jobs && w.jobs[tr.id].user == tr.user
    requires NeverMisread(tr) && tr.at.target != tr.at.staging
    ensures WellPlaced(RecoveredRow(w, tr.id, removeOk, now), tr)
  {
  }

  // -------------------------------------------------------------------- runs

  /** The stored text gives no other place, and the target is named like no partial upload. */
  predicate Sound(tr: Transfer) {
    && NeverMisread(tr)
    && tr.at.target.user == tr.user && tr.at.staging.user == tr.user
    && TransferOf(tr.at.staging) == Some(tr.id)
    && !IsStagingName(FileName(tr.at.target.path))
  }

  predicate Own(user: User, id: Uuid, tr: Transfer) {
    user == tr.user && id == tr.id
  }

  /** Requests under this id and account send this source to this place; everybody else writes
      other targets. Requests may still end in any way, be repeated, or come out of order. */
  predicate Confined(s: Step, tr: Transfer) {
    match s
    case ChunkStep(q, _, _) =>
      Locate(q.folder, q.name).Some? ==>
        var at := PlaceOf(q.user, Locate(q.folder, q.name).value, q.id);
        if Own(q.user, q.id, tr) then at == tr.at && q.total == |tr.source| && SliceAt(tr.source, q.offset, q.body)
        else at.target != tr.at.target && at.target != tr.at.staging
    case FileStep(q, f, _) =>
      Parse(q.folder).Ok? && FileNameOf(q.name).Some? ==>
        var at := PlaceOf(q.user, Parse(q.folder).value + [FileNameOf(q.name).value], q.id);
        if Own(q.user, q.id, tr) then
          at == tr.at && q.body <= tr.source && (!f.broken && !f.writeFailed && f.flushOk ==> q.body == tr.source)
        else at.target != tr.at.target && at.target != tr.at.staging
    case OtherWrite(key, content) => key != tr.at.target && (content.Some? ==> key != tr.at.staging)
    case _ => true
  }

  lemma StagingIsBound(user: User, path: RelPath, id: Uuid)
    ensures TransferOf(StagingKey(user, path, id)) == Some(id)
    ensures IsStagingName(FileName(StagingKey(user, path, id).path))
  {
    StagingPathParsesBack(path, id);
  }

  lemma OtherStaging(user: User, path: RelPath, id: Uuid, tr: Transfer)
    requires Sound(tr) && !Own(user, id, tr)
    ensures StagingKey(user, path, id) != tr.at.staging && StagingKey(user, path, id) != tr.at.target
  {
    StagingIsBound(user, path, id);
  }

  lemma SoundKeysDiffer(tr: Transfer)
    requires Sound(tr)
    ensures tr.at.target != tr.at.staging
  {
  }

  /** What a located chunk request must observe. */
  predicate ChunkConfined(q: ChunkRequest, at: Place, tr: Transfer) {
    if Own(q.user, q.id, tr) then at == tr.at && q.total == |tr.source| && SliceAt(tr.source, q.offset, q.body)
    else Disjoint(at, tr)
  }

  lemma LocatedChunkIsConfined(q: ChunkRequest, f: ChunkFaults, now: nat, tr: Transfer)
    requires Sound(tr) && Confined(ChunkStep(q, f, now), tr) && LocateChunk(q).Some?
    ensures ChunkConfined(q, LocateChunk(q).value, tr)
  {
    var path := Locate(q.folder, q.name).value;
    if !Own(q.user, q.id, tr) {
      OtherStaging(q.user, path, q.id, tr);
    }
  }

  lemma LocatedChunkKeeps(w: World, q: ChunkRequest, at: Place, f: ChunkFaults, now: nat, tr: Transfer)
    requires tr.at.target != tr.at.staging && WellPlaced(w, tr) && ChunkConfined(q, at, tr)
    ensures WellPlaced(ChunkAt(w, q, at, f, now).0, tr)
  {
    if Own(q.user, q.id, tr) {
      OwnChunk(w, q, f, now, tr);
    } else {
      ChunkFrame(w, q, at, f, now);
      ElsewhereKeeps(w, ChunkAt(w, q, at, f, now).0, q.user, q.id, at, tr);
    }
  }

  lemma ChunkStepKeeps(w: World, q: ChunkRequest, f: ChunkFaults, now: nat, maxBytes: nat, tr: Transfer)
    requires Sound(tr) && WellPlaced(w, tr) && Confined(ChunkStep(q, f, now), tr)
    ensures WellPlaced(Chunk(w, q, f, now, maxBytes).0, tr)
  {
    ChunkCases(w, q, f, now, maxBytes);
    SoundKeysDiffer(tr);
    if LocateChunk(q).Some? {
      LocatedChunkIsConfined(q, f, now, tr);
      LocatedChunkKeeps(w, q, LocateChunk(q).value, f, now, tr);
    }
  }

  lemma FileStepKeeps(w: World, q: FileRequest, f: FileFaults, now: nat, tr: Transfer)
    requires Sound(tr) && WellPlaced(w, tr) && Confined(FileStep(q, f, now), tr)
    ensures WellPlaced(WholeFile(w, q, f, now).0, tr)
  {
    var dir := Parse(q.folder);
    var file := FileNameOf(q.name);
    if dir.Ok? && file.Some? && !(q.id in w.jobs && (w.jobs[q.id].user != q.user || w.jobs[q.id].status == Completed)) {
      var at := PlaceOf(q.user, dir.value + [file.value], q.id);
      if Own(q.user, q.id, tr) {
        SoundKeysDiffer(tr);
        OwnFile(w, q, f, now, tr);
      } else {
        OtherStaging(q.user, dir.value + [file.value], q.id, tr);
        FileFrame(w, q, at, f, now);
        ElsewhereKeeps(w, StageFile(w, q, at, f, now).0, q.user, q.id, at, tr);
      }
    }
  }

  lemma RecoverRows(w: World, id: Uuid, removeOk: bool, now: nat)
    ensures var w' := RecoveredRow(w, id, removeOk, now);
            && w'.jobs.Keys == w.jobs.Keys
            && (forall i :: i in w.jobs && i != id ==> w'.jobs[i] == w.jobs[i])
            && (id in w.jobs ==> w'.jobs[id].user == w.jobs[id].user)
  {
  }

  /** Recovery of one row changes that row, and at most removes the staging file its text names. */
  lemma RecoverFrame(w: World, id: Uuid, removeOk: bool, now: nat)
    ensures var w' := RecoveredRow(w, id, removeOk, now);
            && w'.jobs.Keys == w.jobs.Keys
            && (forall i :: i in w.jobs && i != id ==> w'.jobs[i] == w.jobs[i])
            && (id in w.jobs ==> w'.jobs[id].user == w.jobs[id].user)
            && (|| w'.files == w.files
                || (id in w.jobs && PlaceRead(w.jobs[id].user, w.jobs[id].path, id).Some?
                    && w'.files == Remove(w.files, PlaceRead(w.jobs[id].user, w.jobs[id].path, id).value.staging)))
  {
    RecoverRows(w, id, removeOk, now);
  }

  lemma RecoverElsewhereKeeps(w: World, id: Uuid, removeOk: bool, now: nat, tr: Transfer)
    requires Sound(tr) && WellPlaced(w, tr) && id in w.jobs && !Own(w.jobs[id].user, id, tr)
    ensures WellPlaced(RecoveredRow(w, id, removeOk, now), tr)
  {
    RecoverFrame(w, id, removeOk, now);
    if Parse(w.jobs[id].path).Ok? {
      OtherStaging(w.jobs[id].user, Parse(w.jobs[id].path).value, id, tr);
    }
  }

  lemma RecoveredRowKeeps(w: World, id: Uuid, removeOk: bool, now: nat, tr: Transfer)
    requires Sound(tr) && WellPlaced(w, tr)
    ensures WellPlaced(RecoveredRow(w, id, removeOk, now), tr)
  {
    if id in w.jobs {
      if Own(w.jobs[id].user, id, tr) {
        SoundKeysDiffer(tr);
        OwnRecover(w, removeOk, now, tr);
      } else {
        RecoverElsewhereKeeps(w, id, removeOk, now, tr);
      }
    }
  }

  /** A pass that only got to its removal: files may be gone, and no target among them that a row relies on. */
  lemma LostUpdateKeeps(w: World, w': World, update: Outcome, tr: Transfer)
    requires WellPlaced(w, tr) && WellPlaced(w', tr)
    requires tr.at.target in w.files ==> tr.at.target in w'.files
    ensures WellPlaced(UnlessLost(w, w', update), tr)
  {
  }

  /** Recovery and expiry never remove this transfer's target. */
  lemma RecoverKeepsTarget(w: World, id: Uuid, removeOk: bool, now: nat, tr: Transfer)
    requires Sound(tr)
    ensures tr.at.target in w.files ==> tr.at.target in RecoveredRow(w, id, removeOk, now).files
  {
    RecoverFrame(w, id, removeOk, now);
    if id in w.jobs && Parse(w.jobs[id].path).Ok? {
      StagingIsBound(w.jobs[id].user, Parse(w.jobs[id].path).value, id);
    }
  }

  lemma RecoverStepKeeps(w: World, id: Uuid, f: RowFaults, now: nat, tr: Transfer)
    requires Sound(tr) && WellPlaced(w, tr)
    ensures WellPlaced(RecoverRow(w, id, f, now), tr)
  {
    RecoveredRowKeeps(w, id, f.removeOk, now, tr);
    RecoverKeepsTarget(w, id, f.removeOk, now, tr);
    LostUpdateKeeps(w, RecoveredRow(w, id, f.removeOk, now), f.update, tr);
  }

  lemma CleanupStepKeeps(w: World, queryOk: bool, spared: set<FileKey>, ttl: nat, now: nat, tr: Transfer)
    requires Sound(tr) && WellPlaced(w, tr)
    ensures WellPlaced(Cleanup(w, queryOk, spared, ttl, now), tr)
  {
  }

  lemma CrashStepKeeps(w: World, key: FileKey, kept: Option<nat>, tr: Transfer)
    requires Sound(tr) && WellPlaced(w, tr)
    ensures WellPlaced(Crash(w, key, kept), tr)
  {
  }

  /** Expiring one row changes that row, and at most removes the staging file its text names. */
  lemma ExpireFrame(w: World, id: Uuid, removeOk: bool, now: nat)
    ensures var w' := ExpiredRow(w, id, removeOk, now);
            && w'.jobs == (if id in w.jobs
                           then w.jobs[id := w.jobs[id].(status := Failed, lastError := Expired, updatedAt := now)] else w.jobs)
            && (|| w'.files == w.files
                || (id in w.jobs && PlaceRead(w.jobs[id].user, w.jobs[id].path, id).Some?
                    && w'.files == Remove(w.files, PlaceRead(w.jobs[id].user, w.jobs[id].path, id).value.staging)))
  {
  }

  /** A row that fails and a file that goes, other than the target, leave a transfer well placed. */
  lemma FailingKeeps(w: World, w': World, id: Uuid, gone: set<FileKey>, now: nat, tr: Transfer)
    requires WellPlaced(w, tr) && tr.at.target !in gone && w'.files == w.files - gone
    requires w'.jobs == (if id in w.jobs
                         then w.jobs[id := w.jobs[id].(status := Failed, lastError := Expired, updatedAt := now)] else w.jobs)
    ensures WellPlaced(w', tr) && (tr.at.target in w.files ==> tr.at.target in w'.files)
  {
  }

  lemma ExpiredRowKeeps(w: World, id: Uuid, removeOk: bool, now: nat, tr: Transfer)
    requires Sound(tr) && WellPlaced(w, tr)
    ensures WellPlaced(ExpiredRow(w, id, removeOk, now), tr)
    ensures tr.at.target in w.files ==> tr.at.target in ExpiredRow(w, id, removeOk, now).files
  {
    var w' := ExpiredRow(w, id, removeOk, now);
    ExpireFrame(w, id, removeOk, now);
    var gone: set<FileKey> := {};
    if w'.files != w.files {
      gone := {PlaceRead(w.jobs[id].user, w.jobs[id].path, id).value.staging};
      StagingIsBound(w.jobs[id].user, Parse(w.jobs[id].path).value, id);
    }
    assert w.files - {} == w.files;
    FailingKeeps(w, w', id, gone, now, tr);
  }

  lemma ExpireStepKeeps(w: World, id: Uuid, f: RowFaults, now: nat, tr: Transfer)
    requires Sound(tr) && WellPlaced(w, tr)
    ensures WellPlaced(ExpireRow(w, id, f, now), tr)
  {
    ExpiredRowKeeps(w, id, f.removeOk, now, tr);
    LostUpdateKeeps(w, ExpiredRow(w, id, f.removeOk, now), f.update, tr);
  }

  lemma OwnCancel(w: World, user: User, id: Uuid, removeOk: bool, mark: Outcome, now: nat, tr: Transfer)
    requires Sound(tr) && tr.at.target != tr.at.staging && WellPlaced(w, tr) && Own(user, id, tr)
    ensures WellPlaced(Cancel(w, user, id, removeOk, mark, now).0, tr)
  {
  }

  /** Cancelling changes one row of the caller, and at most removes the staging file its text names. */
  lemma CancelFrame(w: World, user: User, id: Uuid, removeOk: bool, mark: Outcome, now: nat)
    ensures var w' := Cancel(w, user, id, removeOk, mark, now).0;
            && w'.jobs.Keys == w.jobs.Keys
            && (forall i :: i in w.jobs && (i != id || w.jobs[i].user != user) ==> w'.jobs[i] == w.jobs[i])
            && (id in w.jobs ==> w'.jobs[id].user == w.jobs[id].user)
            && (|| w'.files == w.files
                || (id in w.jobs && w.jobs[id].user == user && PlaceRead(user, w.jobs[id].path, id).Some?
                    && w'.files == Remove(w.files, PlaceRead(user, w.jobs[id].path, id).value.staging)))
  {
  }

  lemma OtherCancel(w: World, user: User, id: Uuid, removeOk: bool, mark: Outcome, now: nat, tr: Transfer)
    requires Sound(tr) && WellPlaced(w, tr) && !Own(user, id, tr)
    ensures WellPlaced(Cancel(w, user, id, removeOk, mark, now).0, tr)
  {
    CancelFrame(w, user, id, removeOk, mark, now);
    if id in w.jobs && Parse(w.jobs[id].path).Ok? {
      OtherStaging(user, Parse(w.jobs[id].path).value, id, tr);
    }
  }

  lemma CancelStepKeeps(w: World, user: User, id: Uuid, removeOk: bool, mark: Outcome, now: nat, tr: Transfer)
    requires Sound(tr) && WellPlaced(w, tr)
    ensures WellPlaced(Cancel(w, user, id, removeOk, mark, now).0, tr)
  {
    SoundKeysDiffer(tr);
    if Own(user, id, tr) {
      OwnCancel(w, user, id, removeOk, mark, now, tr);
    } else {
      OtherCancel(w, user, id, removeOk, mark, now, tr);
    }
  }

  lemma ConfinedStepKeeps(w: World, s: Step, maxBytes: nat, tr: Transfer)
    requires Sound(tr) && WellPlaced(w, tr) && Confined(s, tr)
    ensures WellPlaced(Apply(w, s, maxBytes), tr)
  {
    match s
    case ChunkStep(q, f, now) => ChunkStepKeeps(w, q, f, now, maxBytes, tr);
    case FileStep(q, f, now) => FileStepKeeps(w, q, f, now, tr);
    case CancelStep(user, id, removeOk, mark, now) => CancelStepKeeps(w, user, id, removeOk, mark, now, tr);
    case RecoverStep(id, f, now) => RecoverStepKeeps(w, id, f, now, tr);
    case ExpireStep(id, f, now) => ExpireStepKeeps(w, id, f, now, tr);
    case CleanupStep(queryOk, spared, ttl, now) => CleanupStepKeeps(w, queryOk, spared, ttl, now, tr);
    case CrashStep(key, kept) => CrashStepKeeps(w, key, kept, tr);
    case _ =>
  }

  lemma {:induction false} RunStaysWellPlaced(w: World, steps: seq<Step>, maxBytes: nat, tr: Transfer)
    requires Sound(tr) && WellPlaced(w, tr)
    requires forall i :: 0 <= i < |steps| ==> Confined(steps[i], tr)
    ensures WellPlaced(Run(w, steps, maxBytes), tr)
    decreases steps
  {
    if steps != [] {
      ConfinedStepKeeps(w, steps[0], maxBytes, tr);
      RunStaysWellPlaced(Apply(w, steps[0], maxBytes), steps[1..], maxBytes, tr);
    }
  }

  /** Completion is exact. Start where the target holds no file and the id is unused. After any run
      in which nobody else writes that target, the target is absent or is the whole source, and
      a completed row means it is there, with every counter equal to the source's length. */
  lemma CompletionIsExact(w: World, steps: seq<Step>, maxBytes: nat, user: User, id: Uuid, path: RelPath, source: Bytes)
    requires path != [] && (Parse(StoredText(path)).Ok? ==> Reparses(path)) && !IsStagingName(FileName(path))
    requires TargetKey(user, path) !in w.files && StagingKey(user, path, id) !in w.files && id !in w.jobs
    requires forall i :: 0 <= i < |steps| ==> Confined(steps[i], Transfer(user, id, PlaceOf(user, path, id), source))
    ensures var w' := Run(w, steps, maxBytes);
            && (TargetKey(user, path) in w'.files ==> w'.files[TargetKey(user, path)] == source)
            && (id in w'.jobs && w'.jobs[id].user == user && w'.jobs[id].status == Completed ==>
                  && TargetKey(user, path) in w'.files
                  && w'.jobs[id].received == w'.jobs[id].sizeBytes == |source|
                  && (w'.jobs[id].checksum.Some? ==> w'.jobs[id].checksum.value == Sha256(source)))
  {
    var tr := Transfer(user, id, PlaceOf(user, path, id), source);
    StagingIsBound(user, path, id);
    RunStaysWellPlaced(w, steps, maxBytes, tr);
  }

  /** Without that assumption recovery is fooled: any file already at the target completes the job. */
  lemma RecoveryTrustsAnyTarget(w: World, id: Uuid, at: Place, now: nat)
    requires id in w.jobs && Unfinished(w.jobs[id].status)
    requires PlaceRead(w.jobs[id].user, w.jobs[id].path, id) == Some(at)
    ensures RecoveredRow(w, id, true, now).jobs[id].status == Completed <==> at.target in w.files
    ensures at.target in w.files ==> RecoveredRow(w, id, true, now).files == w.files
  {
  }
}
