/** Why cancel has to stay outside a chunk request of the same upload (server/src/handlers/upload.rs).

    The chunk handler reads the staging length, re-creates a missing staging file, and then seeks to the
    offset it agreed on. Cancel takes no per-upload lock, so it can remove the file in between. */
module UploadInterleaving {
  import opened Prelude
  import opened Paths
  import opened UploadModel

  /** A chunk whose reconciliation has just agreed on its offset. */
  predicate Agreed(w: World, q: ChunkRequest, at: Place) {
    && q.id in w.jobs && w.jobs[q.id].user == q.user && w.jobs[q.id].path == at.text
    && w.jobs[q.id].status != Completed && w.jobs[q.id].received == q.offset
    && FileLen(w, at.staging) == q.offset
  }

  /** The rest of the chunk handler from the point where it looks for the staging file. */
  function Resume(w: World, q: ChunkRequest, at: Place, now: nat): (World, Response)
    requires q.id in w.jobs
  {
    var w' := if at.staging in w.files then w else SetFile(w, at.staging, []);
    Receive(w', q, at, q.offset, NO_FAULTS, now)
  }

  lemma CancelTakesTheFile(w: World, q: ChunkRequest, path: RelPath, now: nat)
    requires Reparses(path) && Agreed(w, q, PlaceOf(q.user, path, q.id))
    ensures var w' := Cancel(w, q.user, q.id, true, Done, now).0;
            && PlaceOf(q.user, path, q.id).staging !in w'.files
            && q.id in w'.jobs && w'.jobs[q.id].status == Failed
  {
  }

  /** The request sent what it declared, and no more than its upload. */
  predicate Proper(q: ChunkRequest) {
    && (q.contentLength.Some? ==> q.contentLength.value == |q.body|)
    && q.body != [] && q.offset + |q.body| <= q.total
  }

  /** Where the bytes of an accepted chunk are afterwards, and what the row says: in the staging file of a row that is
      `receiving`, or, after the last chunk, at the target of a completed one. */
  predicate Holds(w: World, r: Response, q: ChunkRequest, at: Place, content: Bytes)
    requires q.id in w.jobs
  {
    var job := w.jobs[q.id];
    && job.received == q.offset + |q.body|
    && (if job.received < q.total then
          && at.staging in w.files && w.files[at.staging] == content
          && job.status == Receiving && r == Continue(job.received)
        else
          && at.target in w.files && w.files[at.target] == content
          && job.status == Completed && job.checksum == Some(Sha256(content)) && r == Finished(q.total))
  }

  /** A cancel at that point leaves NUL bytes in front of the chunk and confirms the whole length: the cancelled row is back
      in `receiving`, or completed with a file that starts with the hole. */
  lemma CancelInsideAChunkLeavesAHole(w: World, q: ChunkRequest, path: RelPath, now: nat)
    requires Reparses(path) && Agreed(w, q, PlaceOf(q.user, path, q.id)) && Proper(q)
    ensures var at := PlaceOf(q.user, path, q.id);
            var cancelled := Cancel(w, q.user, q.id, true, Done, now).0;
            && q.id in cancelled.jobs && cancelled.jobs[q.id].status == Failed
            && var (w', r) := Resume(cancelled, q, at, now);
               q.id in w'.jobs && Holds(w', r, q, at, Zeros(q.offset) + q.body)
  {
    CancelTakesTheFile(w, q, path, now);
    var at := PlaceOf(q.user, path, q.id);
    var cancelled := Cancel(w, q.user, q.id, true, Done, now).0;
    assert WriteAt([], q.offset, q.body) == Zeros(q.offset) + q.body;
    ResumedWrite(cancelled, q, at, [], now);
  }

  lemma ResumedWrite(w: World, q: ChunkRequest, at: Place, staged: Bytes, now: nat)
    requires q.id in w.jobs && Proper(q) && staged == if at.staging in w.files then w.files[at.staging] else []
    ensures var (w', r) := Resume(w, q, at, now);
            q.id in w'.jobs && Holds(w', r, q, at, WriteAt(staged, q.offset, q.body))
  {
  }

  /** The same request without the cancel extends the file. */
  lemma UndisturbedChunkExtends(w: World, q: ChunkRequest, path: RelPath, now: nat)
    requires Agreed(w, q, PlaceOf(q.user, path, q.id)) && Proper(q)
    ensures var at := PlaceOf(q.user, path, q.id);
            var before := if at.staging in w.files then w.files[at.staging] else [];
            var (w', r) := Resume(w, q, at, now);
            q.id in w'.jobs && Holds(w', r, q, at, before + q.body)
  {
    var at := PlaceOf(q.user, path, q.id);
    var before := if at.staging in w.files then w.files[at.staging] else [];
    assert before[..q.offset] == before;
    assert WriteAt(before, q.offset, q.body) == before + q.body;
    ResumedWrite(w, q, at, before, now);
  }
}
