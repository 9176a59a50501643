/** The upload handlers as they run: methods over a mutable job table and mutable files,
    each proved to do what its step function says. */
module UploadServer {
  import opened Prelude
  import opened Text
  import opened Paths
  import opened StagingNames
  import opened UploadModel

  function Concat(frames: seq<Bytes>): Bytes {
    if frames == [] then [] else frames[0] + Concat(frames[1..])
  }

  lemma {:induction false} ConcatSnoc(frames: seq<Bytes>, last: Bytes)
    ensures Concat(frames + [last]) == Concat(frames) + last
  {
    if frames == [] {
      assert [last] == [] + [last];
    } else {
      ConcatSnoc(frames[1..], last);
      assert (frames + [last])[1..] == frames[1..] + [last];
    }
  }

  /** What comes before a write at an offset, and what stays behind it. */
  function Before(content: Bytes, offset: nat): (r: Bytes)
    ensures |r| == offset
  {
    if offset <= |content| then content[..offset] else content + Zeros(offset - |content|)
  }

  function Behind(content: Bytes, offset: nat): Bytes {
    if offset <= |content| then content[offset..] else []
  }

  lemma WriteParts(content: Bytes, offset: nat, data: Bytes)
    requires data != []
    ensures WriteAt(content, offset, data) == Before(content, offset) + data + Behind(content, offset + |data|)
  {
    assert offset > |content| ==> Before(content, offset) + data + [] == Before(content, offset) + data;
  }

  lemma PartsOfSum(before: Bytes, data: Bytes, behind: Bytes, more: nat)
    ensures Before(before + data + behind, |before| + |data|) == before + data
    ensures Behind(before + data + behind, |before| + |data| + more) == Behind(behind, more)
  {
    var whole := before + data + behind;
    assert whole[..|before + data|] == before + data;
    if more <= |behind| {
      assert whole[|before + data| + more..] == behind[more..];
    }
  }

  lemma WriteBehind(x: Bytes, a: Bytes, b: Bytes, t: Bytes)
    requires b != []
    ensures WriteAt(x + a + t, |x| + |a|, b) == x + (a + b) + Behind(t, |b|)
  {
    WriteParts(x + a + t, |x| + |a|, b);
    PartsOfSum(x, a, t, |b|);
    Regroup(x, a, b);
  }

  lemma WrittenTwice(content: Bytes, offset: nat, a: Bytes, b: Bytes, both: Bytes)
    requires a != [] && b != [] && both == a + b
    ensures WriteAt(WriteAt(content, offset, a), offset + |a|, b)
         == Before(content, offset) + both + Behind(content, offset + |both|)
  {
    WriteParts(content, offset, a);
    WriteBehind(Before(content, offset), a, b, Behind(content, offset + |a|));
    BehindTwice(content, offset + |a|, |b|);
  }

  lemma BothWritten(content: Bytes, offset: nat, a: Bytes, b: Bytes, both: Bytes)
    requires a != [] && b != [] && both == a + b
    ensures WriteAt(WriteAt(content, offset, a), offset + |a|, b) == WriteAt(content, offset, both)
  {
    WrittenTwice(content, offset, a, b, both);
    WriteParts(content, offset, both);
  }

  lemma Regroup(x: Bytes, y: Bytes, z: Bytes)
    ensures x + (y + z) == x + y + z
  {
  }

  lemma BehindTwice(content: Bytes, offset: nat, more: nat)
    ensures more > 0 ==> Behind(Behind(content, offset), more) == Behind(content, offset + more)
  {
    if offset + more <= |content| {
      assert content[offset..][more..] == content[offset + more..];
    }
  }

  /** Writing two frames one after the other is one write of both. */
  lemma WritesCompose(content: Bytes, offset: nat, a: Bytes, b: Bytes)
    ensures WriteAt(WriteAt(content, offset, a), offset + |a|, b) == WriteAt(content, offset, a + b)
  {
    if a == [] {
      assert a + b == b;
    } else if b == [] {
      assert a + b == a;
    } else {
      BothWritten(content, offset, a, b, a + b);
    }
  }

  class Server {
    var jobs: map<Uuid, Job>
    var files: map<FileKey, Bytes>
    const maxBytes: nat

    constructor (maxBytes: nat)
      ensures View() == EMPTY && this.maxBytes == maxBytes
    {
      this.jobs := map[];
      this.files := map[];
      this.maxBytes := maxBytes;
    }

    function View(): World
      reads this
    {
      World(jobs, files)
    }

    /** A write of the job table that may fail before or after taking effect. */
    method PutJob(id: Uuid, job: Job, how: Outcome) returns (ok: bool)
      modifies this`jobs
      ensures ok == how.Done?
      ensures jobs == if how.TakesEffect() then old(jobs)[id := job] else old(jobs)
    {
      if how != FailsBefore {
        jobs := jobs[id := job];
      }
      ok := how == Done;
    }

    method Admit(q: ChunkRequest, at: Place, f: ChunkFaults, now: nat) returns (r: Admission)
      modifies this`jobs
      ensures r == UploadModel.Admit(old(View()), q, at, f, now) && r.world == View()
    {
      var received := 0;
      if q.id in jobs && jobs[q.id].user == q.user {
        var job := jobs[q.id];
        if job.status == Completed {
          return Answer(View(), Finished(job.received));
        }
        if job.path != at.text || job.total != Some(q.total) {
          return Answer(View(), Rejected(Conflict));
        }
        received := job.received;
      } else {
        if !f.quotaOk {
          return Answer(View(), Rejected(QuotaExceeded));
        }
        if q.id in jobs {
          return Answer(View(), Rejected(Conflict));
        }
        var ok := PutJob(q.id, Job(q.user, at.text, 0, Receiving, 0, Some(q.total), None, NoError, now), f.claim);
        if !ok {
          return Answer(View(), Rejected(Internal));
        }
      }
      if q.contentLength.Some? && q.offset + q.contentLength.value > q.total {
        return Answer(View(), Rejected(BadRequest));
      }
      return Proceed(View(), received);
    }

    method Reconcile(id: Uuid, key: FileKey, confirmed: nat, f: ChunkFaults, now: nat) returns (r: Admission)
      requires id in jobs
      modifies this
      ensures r == UploadModel.Reconcile(old(View()), id, key, confirmed, f, now) && r.world == View()
    {
      var received := confirmed;
      var stagingLen := if key in files then |files[key]| else 0;
      if stagingLen != received {
        if stagingLen > received {
          if f.reconcile != FailsBefore {
            files := files[key := files[key][..received]];
          }
          if f.reconcile != Done {
            return Answer(View(), Rejected(Internal));
          }
        } else {
          received := stagingLen;
          var ok := PutJob(id, jobs[id].(received := received, sizeBytes := received, updatedAt := now), f.reconcile);
          if !ok {
            return Answer(View(), Rejected(Internal));
          }
        }
      }
      return Proceed(View(), received);
    }

    method Prepare(q: ChunkRequest, at: Place, f: ChunkFaults, now: nat) returns (r: Admission)
      modifies this
      ensures r == UploadModel.Prepare(old(View()), q, at, f, now) && r.world == View()
    {
      r := Admit(q, at, f, now);
      if r.Answer? {
        return;
      }
      r := Reconcile(q.id, at.staging, r.received, f, now);
      if r.Answer? {
        return;
      }
      var received := r.received;
      if at.staging !in files {
        if f.create != FailsBefore {
          files := files[at.staging := []];
        }
        if f.create != Done {
          return Answer(View(), Rejected(Internal));
        }
      }
      if q.offset != received {
        return Answer(View(), ResumeFrom(received));
      }
      if !f.openOk {
        return Answer(View(), Rejected(Internal));
      }
      return Proceed(View(), received);
    }

    /** Writes the body frame by frame from the agreed offset on. */
    method StreamBody(key: FileKey, offset: nat, frames: seq<Bytes>) returns (written: nat)
      requires key in files
      modifies this`files
      ensures written == |Concat(frames)|
      ensures files == old(files)[key := WriteAt(old(files)[key], offset, Concat(frames))]
    {
      ghost var before := files[key];
      written := 0;
      assert files == files[key := WriteAt(before, offset, [])];
      for i := 0 to |frames|
        invariant key in files && written == |Concat(frames[..i])|
        invariant files == old(files)[key := WriteAt(before, offset, Concat(frames[..i]))]
      {
        assert frames[..i + 1] == frames[..i] + [frames[i]];
        ConcatSnoc(frames[..i], frames[i]);
        WritesCompose(before, offset, Concat(frames[..i]), frames[i]);
        files := files[key := WriteAt(files[key], offset + written, frames[i])];
        written := written + |frames[i]|;
      }
      assert frames[..|frames|] == frames;
    }

    method Finish(q: ChunkRequest, at: Place, f: ChunkFaults, now: nat) returns (response: Response)
      requires q.id in jobs && at.staging in files
      modifies this
      ensures (View(), response) == UploadModel.Finish(old(View()), q, at, f, now)
    {
      if !f.hashOk {
        return Rejected(Internal);
      }
      var checksum := Sha256(files[at.staging]);
      match f.rename
      case RenameFailed(targetRemoved) =>
        if targetRemoved {
          files := files - {at.target};
        }
        var _ := PutJob(q.id, jobs[q.id].(status := Failed, lastError := Io, updatedAt := now), f.mark);
        return Rejected(Internal);
      case Renamed =>
        var content := files[at.staging];
        files := files - {at.staging};
        files := files[at.target := content];
        var ok := PutJob(q.id, jobs[q.id].(received := q.total, sizeBytes := q.total, status := Completed,
                                           checksum := Some(checksum), lastError := NoError, updatedAt := now), f.commit);
        return if ok then Finished(q.total) else Rejected(Internal);
    }

    method Receive(q: ChunkRequest, frames: seq<Bytes>, at: Place, received: nat, f: ChunkFaults, now: nat)
      returns (response: Response)
      requires q.id in jobs && at.staging in files && Concat(frames) == q.body
      modifies this
      ensures (View(), response) == UploadModel.Receive(old(View()), q, at, received, f, now)
    {
      if f.broken || (q.contentLength.Some? && q.contentLength.value != |q.body|) || !f.flushOk {
        files := files[at.staging := WriteAt(files[at.staging], q.offset, q.body[..Min(f.flushed, |q.body|)])];
        return Rejected(if f.broken || (q.contentLength.Some? && q.contentLength.value != |q.body|)
                        then BadRequest else Internal);
      }
      var written := StreamBody(at.staging, q.offset, frames);
      var newReceived := received + written;
      if newReceived >= q.total && !f.syncOk {
        return Rejected(Internal);
      }
      if newReceived > q.total {
        return Rejected(BadRequest);
      }
      if newReceived < q.total {
        var ok := PutJob(q.id, jobs[q.id].(received := newReceived, sizeBytes := newReceived, status := Receiving,
                                           lastError := NoError, updatedAt := now), f.commit);
        return if ok then Continue(newReceived) else Rejected(Internal);
      }
      response := Finish(q, at, f, now);
    }

    method UploadChunkAt(q: ChunkRequest, frames: seq<Bytes>, at: Place, f: ChunkFaults, now: nat) returns (response: Response)
      requires Concat(frames) == q.body
      modifies this
      ensures (View(), response) == ChunkAt(old(View()), q, at, f, now)
    {
      var ready := Prepare(q, at, f, now);
      if ready.Answer? {
        return ready.response;
      }
      response := Receive(q, frames, at, ready.received, f, now);
    }

    /** `upload_chunk`: the request body arrives as frames. */
    method UploadChunk(q: ChunkRequest, frames: seq<Bytes>, f: ChunkFaults, now: nat) returns (response: Response)
      requires Concat(frames) == q.body
      modifies this
      ensures (View(), response) == Chunk(old(View()), q, f, now, maxBytes)
    {
      if !f.slot {
        return Rejected(Unavailable);
      }
      var folder := SafeRelativePath(q.folder);
      if folder.Err? {
        return Rejected(BadRequest);
      }
      if !f.writeAccess {
        return Rejected(Forbidden);
      }
      var file := FileNameOf(q.name);
      if Trim(q.name) == "" || file.None? {
        return Rejected(BadRequest);
      }
      if !f.parentOk {
        return Rejected(Internal);
      }
      if q.total > maxBytes {
        return Rejected(BadRequest);
      }
      response := UploadChunkAt(q, frames, PlaceOf(q.user, folder.value + [file.value], q.id), f, now);
    }

    method PlaceFile(q: FileRequest, at: Place, f: FileFaults, now: nat) returns (response: Response)
      requires q.id in jobs && at.staging in files
      modifies this
      ensures (View(), response) == UploadModel.PlaceFile(old(View()), q, at, f, now)
    {
      var ok := PutJob(q.id, jobs[q.id].(sizeBytes := |q.body|, status := Staging, updatedAt := now), f.stage);
      if !ok {
        return Rejected(Internal);
      }
      if !f.quotaOk || f.rename.RenameFailed? {
        if f.quotaOk && f.rename.targetRemoved {
          files := files - {at.target};
        }
        if f.removeOk {
          files := files - {at.staging};
        }
        var error := if f.quotaOk then Io else QuotaError;
        var _ := PutJob(q.id, jobs[q.id].(status := Failed, lastError := error, updatedAt := now), f.mark);
        return Rejected(if f.quotaOk then Internal else QuotaExceeded);
      }
      var content := files[at.staging];
      files := files - {at.staging};
      files := files[at.target := content];
      ok := PutJob(q.id, jobs[q.id].(status := Completed, received := |q.body|, updatedAt := now), f.commit);
      return if ok then Finished(|q.body|) else Rejected(Internal);
    }

    method StageFile(q: FileRequest, at: Place, f: FileFaults, now: nat) returns (response: Response)
      modifies this
      ensures (View(), response) == UploadModel.StageFile(old(View()), q, at, f, now)
    {
      var job := if q.id in jobs then jobs[q.id].(path := at.text, status := Receiving, updatedAt := now)
                 else Job(q.user, at.text, 0, Receiving, 0, None, None, NoError, now);
      var ok := PutJob(q.id, job, f.claim);
      if !ok {
        return Rejected(Internal);
      }
      if f.create != FailsBefore {
        files := files[at.staging := []];
      }
      if f.create != Done {
        return Rejected(Internal);
      }
      if f.writeFailed || f.broken || !f.flushOk {
        files := files[at.staging := q.body[..Min(f.flushed, |q.body|)]];
        if f.writeFailed && f.removeOk {
          files := files - {at.staging};
        }
        return Rejected(if !f.writeFailed && f.broken then BadRequest else Internal);
      }
      files := files[at.staging := q.body];
      response := PlaceFile(q, at, f, now);
    }

    /** One `file` field of `upload_file`. */
    method UploadFileField(q: FileRequest, f: FileFaults, now: nat) returns (response: Response)
      modifies this
      ensures (View(), response) == WholeFile(old(View()), q, f, now)
    {
      if q.id in jobs && jobs[q.id].user == q.user && jobs[q.id].status == Completed {
        return Finished(jobs[q.id].sizeBytes);
      }
      var folder := SafeRelativePath(q.folder);
      if folder.Err? {
        return Rejected(BadRequest);
      }
      if !f.writeAccess {
        return Rejected(Forbidden);
      }
      var file := FileNameOf(q.name);
      if file.None? {
        return Rejected(BadRequest);
      }
      if !f.parentOk {
        return Rejected(Internal);
      }
      if q.id in jobs && jobs[q.id].user != q.user {
        return Rejected(Conflict);
      }
      response := StageFile(q, PlaceOf(q.user, folder.value + [file.value], q.id), f, now);
    }

    /** `upload_file`: the loop over the fields of the request. */
    method UploadFile(user: User, fields: seq<Field>) returns (response: Response)
      modifies this
      ensures (View(), response) == Multipart(old(View()), user, fields, NO_FIELDS)
    {
      ghost var before := View();
      var form := NO_FIELDS;
      for i := 0 to |fields|
        invariant Multipart(View(), user, fields[i..], form) == Multipart(before, user, fields, NO_FIELDS)
      {
        assert fields[i..][0] == fields[i] && fields[i..][1..] == fields[i + 1..];
        match fields[i]
        case PathField(text) =>
          if text.None? { return Rejected(BadRequest); }
          form := form.(path := text);
        case IdField(text) =>
          if text.None? { return Rejected(BadRequest); }
          var id := ParseUuid(Trim(text.value));
          if id.None? { return Rejected(BadRequest); }
          form := form.(id := id);
        case OtherField =>
        case BrokenField => return Rejected(BadRequest);
        case FileField(_, _, f, now) =>
          if form.id.None? { return Rejected(BadRequest); }
          var done := AlreadyDone(View(), user, form.id.value);
          response := UploadFileField(RequestOf(user, form, fields[i]), f, now);
          if !response.Finished? || done { return; }
          form := form.(result := Some(response.received));
      }
      response := if form.result.Some? then Finished(form.result.value) else Rejected(BadRequest);
    }

    /** `cancel_upload`. */
    method CancelUpload(user: User, id: Uuid, removeOk: bool, mark: Outcome, now: nat) returns (response: Response)
      modifies this
      ensures (View(), response) == Cancel(old(View()), user, id, removeOk, mark, now)
    {
      if id !in jobs || jobs[id].user != user {
        return Unknown;
      }
      if jobs[id].status == Completed {
        return Finished(jobs[id].received);
      }
      var path := SafeRelativePath(jobs[id].path);
      if path.Err? {
        return Rejected(BadRequest);
      }
      if removeOk {
        files := files - {StagingKey(user, path.value, id)};
      }
      var ok := PutJob(id, jobs[id].(status := Failed, lastError := Cancelled, updatedAt := now), mark);
      return if ok then Stopped else Rejected(Internal);
    }

    /** One row update that may fail; a failing one ends the pass. */
    method UpdateRow(id: Uuid, job: Job, update: Outcome) returns (ok: bool)
      modifies this`jobs
      ensures jobs == if update.TakesEffect() then old(jobs)[id := job] else old(jobs)
      ensures ok == update.Done?
    {
      if update.TakesEffect() {
        jobs := jobs[id := job];
      }
      ok := update.Done?;
    }

    method RecoverJob(id: Uuid, f: RowFaults, now: nat) returns (ok: bool)
      requires id in jobs && Unfinished(jobs[id].status)
      modifies this
      ensures View() == RecoverRow(old(View()), id, f, now) && ok == f.update.Done?
    {
      var job := jobs[id];
      var path := SafeRelativePath(job.path);
      if path.Err? {
        ok := UpdateRow(id, job.(status := Failed, updatedAt := now), f.update);
        return;
      }
      var at := PlaceOf(job.user, path.value, id);
      if at.target in files {
        var size := |files[at.target]|;
        ok := UpdateRow(id, job.(sizeBytes := size, received := size, status := Completed, updatedAt := now), f.update);
        return;
      }
      var stagingLen := if at.staging in files then |files[at.staging]| else 0;
      if stagingLen == job.received && job.received > 0 {
        ok := UpdateRow(id, job.(status := Receiving, updatedAt := now), f.update);
      } else {
        if f.removeOk {
          files := files - {at.staging};
        }
        ok := UpdateRow(id, job.(received := 0, sizeBytes := 0, status := Receiving, updatedAt := now), f.update);
      }
    }

    /** `recover_upload_jobs` over the rows its query selected. */
    method RecoverUploadJobs(rows: seq<Fetched>, now: nat) returns (ok: bool)
      requires Selects(rows, UnfinishedRows(View()))
      modifies this
      ensures (View(), ok) == Recover(old(View()), rows, now)
    {
      ghost var before := View();
      for i := 0 to |rows|
        invariant Recover(View(), rows[i..], now) == Recover(before, rows, now)
        invariant forall j :: i <= j < |rows| ==> rows[j].id in jobs && Unfinished(jobs[rows[j].id].status)
      {
        assert rows[i..][0] == rows[i] && rows[i..][1..] == rows[i + 1..];
        RecoveredRowFrame(View(), rows[i].id, rows[i].faults, now);
        ok := RecoverJob(rows[i].id, rows[i].faults, now);
        if !ok {
          return;
        }
      }
      ok := true;
    }

    /** `cleanup_stale_uploads`: visits the files in no particular order. */
    method CleanupStaleUploads(queryOk: bool, spared: set<FileKey>, ttl: nat, now: nat)
      modifies this`files
      ensures View() == Cleanup(old(View()), queryOk, spared, ttl, now)
    {
      var live: set<Uuid> := LiveSessions(View(), queryOk, ttl, now);
      var pending := files.Keys;
      while pending != {}
        invariant pending <= old(files).Keys
        invariant forall k :: k in files <==> k in old(files) && (k in pending || KeepsOnCleanup(k, live) || k in spared)
        invariant forall k :: k in files ==> files[k] == old(files)[k]
        decreases pending
      {
        var key :| key in pending;
        pending := pending - {key};
        if key !in spared && IsStagingName(FileName(key.path)) {
          var id := StagingUploadId(FileName(key.path));
          if id.None? || id.value !in live {
            files := files - {key};
          }
        }
      }
    }

    method ExpireJob(id: Uuid, f: RowFaults, now: nat) returns (ok: bool)
      requires id in jobs
      modifies this
      ensures View() == ExpireRow(old(View()), id, f, now) && ok == f.update.Done?
    {
      var job := jobs[id];
      var path := SafeRelativePath(job.path);
      if path.Ok? && f.removeOk {
        files := files - {StagingKey(job.user, path.value, id)};
      }
      ok := UpdateRow(id, job.(status := Failed, lastError := Expired, updatedAt := now), f.update);
    }

    /** `sweep_expired_uploads`: expires the rows its query selected, then prunes what is long finished. */
    method SweepExpiredUploads(rows: seq<Fetched>, prune: Outcome, ttl: nat, now: nat) returns (expired: Option<nat>)
      requires Selects(rows, ExpiredRows(View(), ttl, now))
      modifies this
      ensures (View(), expired) == Sweep(old(View()), rows, prune, ttl, now)
    {
      ghost var before := View();
      var count := 0;
      for i := 0 to |rows|
        invariant count == i
        invariant Expire(View(), rows[i..], now) == Expire(before, rows, now)
        invariant forall j :: i <= j < |rows| ==> rows[j].id in jobs
      {
        assert rows[i..][0] == rows[i] && rows[i..][1..] == rows[i + 1..];
        var ok := ExpireJob(rows[i].id, rows[i].faults, now);
        if !ok {
          return None;
        }
        count := count + 1;
      }
      if prune.TakesEffect() {
        jobs := Prune(View(), ttl, now).jobs;
      }
      expired := if prune.Done? then Some(count) else None;
    }
  }

  /** Recovering one row leaves all other rows in the table as they are. */
  lemma RecoveredRowFrame(w: World, id: Uuid, f: RowFaults, now: nat)
    ensures var w' := RecoverRow(w, id, f, now);
            w'.jobs.Keys == w.jobs.Keys && forall i :: i in w.jobs && i != id ==> w'.jobs[i] == w.jobs[i]
  {
  }
}
