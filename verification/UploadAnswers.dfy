/** What the answers of the upload handlers promise (server/src/handlers/upload.rs): an upload that is acknowledged is at
    its target, and one that is refused has changed nothing. */
module UploadAnswers {
  import opened Prelude
  import opened Text
  import opened Paths
  import opened StagingNames
  import opened UploadModel
  import opened UploadNoHoles
  import opened UploadCompletion

  /** The file is at its target with exactly these bytes, its staging file is gone, and its row says so. */
  predicate Delivered(w: World, user: User, id: Uuid, at: Place, body: Bytes) {
    && at.target in w.files && w.files[at.target] == body && at.staging !in w.files
    && id in w.jobs && w.jobs[id].user == user && w.jobs[id].path == at.text
    && w.jobs[id].status == Completed && w.jobs[id].received == w.jobs[id].sizeBytes == |body|
  }

  /** The staging name is longer than the target's. */
  lemma KeysDiffer(user: User, path: RelPath, id: Uuid)
    requires path != []
    ensures PlaceOf(user, path, id).target != PlaceOf(user, path, id).staging
  {
    assert |FileName(StagingPath(path, id))| > |FileName(path)|;
  }

  // ------------------------------------------------------------ whole files

  const SMOOTH: FileFaults := FileFaults(true, true, Done, Done, false, false, 0, true, true, Done, true, Renamed, Done, Done)

  lemma StagedFileDelivers(w: World, q: FileRequest, at: Place, now: nat)
    requires at.target != at.staging
    requires q.id in w.jobs ==> w.jobs[q.id].user == q.user && w.jobs[q.id].status != Completed
    ensures var (w', r) := StageFile(w, q, at, SMOOTH, now);
            && r == Finished(|q.body|) && Delivered(w', q.user, q.id, at, q.body)
            && w'.files == w.files - {at.staging} + map[at.target := q.body] && w'.jobs.Keys == w.jobs.Keys + {q.id}
  {
  }

  lemma ReachesStage(w: World, q: FileRequest, at: Place, f: FileFaults, now: nat)
    requires LocateFile(q) == Some(at) && f.writeAccess && f.parentOk
    requires q.id in w.jobs ==> w.jobs[q.id].user == q.user && w.jobs[q.id].status != Completed
    ensures WholeFile(w, q, f, now) == StageFile(w, q, at, f, now)
  {
  }

  /** Without faults a file that can be located is delivered, when its id is free or an unfinished row of the caller. */
  lemma WholeFileDelivers(w: World, q: FileRequest, at: Place, now: nat)
    requires LocateFile(q) == Some(at)
    requires q.id in w.jobs ==> w.jobs[q.id].user == q.user && w.jobs[q.id].status != Completed
    ensures var (w', r) := WholeFile(w, q, SMOOTH, now);
            && r == Finished(|q.body|) && Delivered(w', q.user, q.id, at, q.body)
            && w'.files == w.files - {at.staging} + map[at.target := q.body] && w'.jobs.Keys == w.jobs.Keys + {q.id}
  {
    KeysDiffer(q.user, Parse(q.folder).value + [FileNameOf(q.name).value], q.id);
    ReachesStage(w, q, at, SMOOTH, now);
    StagedFileDelivers(w, q, at, now);
  }

  lemma AcknowledgedStage(w: World, q: FileRequest, at: Place, f: FileFaults, now: nat)
    requires at.target != at.staging && (q.id in w.jobs ==> w.jobs[q.id].user == q.user)
    ensures var (w', r) := StageFile(w, q, at, f, now);
            r.Finished? ==>
              && r == Finished(|q.body|) && !f.broken && !f.writeFailed && f.flushOk && f.quotaOk
              && Delivered(w', q.user, q.id, at, q.body)
  {
  }

  /** Whatever fails, a file that is acknowledged and was not finished before is delivered. */
  lemma AcknowledgedFileIsDelivered(w: World, q: FileRequest, f: FileFaults, now: nat)
    requires !AlreadyDone(w, q.user, q.id)
    ensures var (w', r) := WholeFile(w, q, f, now);
            r.Finished? ==>
              && LocateFile(q).Some? && r == Finished(|q.body|) && !f.broken && !f.writeFailed && f.flushOk && f.quotaOk
              && Delivered(w', q.user, q.id, LocateFile(q).value, q.body)
  {
    if WholeFile(w, q, f, now).1.Finished? {
      KeysDiffer(q.user, Parse(q.folder).value + [FileNameOf(q.name).value], q.id);
      AcknowledgedStage(w, q, LocateFile(q).value, f, now);
    }
  }

  /** A file that was finished before is answered with its size, and a refused request changes nothing. */
  lemma FileRefusals(w: World, q: FileRequest, f: FileFaults, now: nat)
    ensures AlreadyDone(w, q.user, q.id) ==> WholeFile(w, q, f, now) == (w, Finished(w.jobs[q.id].sizeBytes))
    ensures !AlreadyDone(w, q.user, q.id) && Parse(q.folder).Err? ==> WholeFile(w, q, f, now) == (w, Rejected(BadRequest))
    ensures !AlreadyDone(w, q.user, q.id) && Parse(q.folder).Ok? && !f.writeAccess ==>
              WholeFile(w, q, f, now) == (w, Rejected(Forbidden))
    ensures !AlreadyDone(w, q.user, q.id) && Parse(q.folder).Ok? && f.writeAccess && FileNameOf(q.name).None? ==>
              WholeFile(w, q, f, now) == (w, Rejected(BadRequest))
    ensures !AlreadyDone(w, q.user, q.id) && LocateFile(q).Some? && f.writeAccess && !f.parentOk ==>
              WholeFile(w, q, f, now) == (w, Rejected(Internal))
    ensures LocateFile(q).Some? && f.writeAccess && f.parentOk && q.id in w.jobs && w.jobs[q.id].user != q.user ==>
              WholeFile(w, q, f, now) == (w, Rejected(Conflict))
  {
  }

  /** A file that the quota refuses leaves nothing behind when its removal works: its row has failed, and the target is as it
      was. A failed rename leaves no more, except that the fallback may have removed the target. */
  lemma RefusedFileLeavesNothing(w: World, q: FileRequest, at: Place, f: FileFaults, now: nat)
    requires at.target != at.staging && f.removeOk && f.mark.TakesEffect()
    requires f.claim.Done? && f.create.Done? && !f.broken && !f.writeFailed && f.flushOk && f.stage.Done?
    requires !f.quotaOk || f.rename.RenameFailed?
    ensures var (w', r) := StageFile(w, q, at, f, now);
            && r == Rejected(if f.quotaOk then Internal else QuotaExceeded)
            && w'.files == w.files - {at.staging} - (if f.quotaOk && f.rename.targetRemoved then {at.target} else {})
            && q.id in w'.jobs && w'.jobs[q.id].status == Failed
            && w'.jobs[q.id].lastError == if f.quotaOk then Io else QuotaError
  {
  }

  // ------------------------------------------------------------ multipart requests

  /** The text of the last readable `path` field, empty without one. */
  function FolderTold(fields: seq<Field>): string {
    if fields == [] then ""
    else
      var last := fields[|fields| - 1];
      if last.PathField? && last.text.Some? then last.text.value else FolderTold(fields[..|fields| - 1])
  }

  /** The last id that was told. */
  function IdTold(fields: seq<Field>): Option<Uuid> {
    if fields == [] then None
    else
      var last := fields[|fields| - 1];
      if last.IdField? && last.text.Some? && ParseUuid(Trim(last.text.value)).Some? then ParseUuid(Trim(last.text.value))
      else IdTold(fields[..|fields| - 1])
  }

  /** The file of this field, as the fields before it and its own name say. */
  function FileTold(user: User, fields: seq<Field>, k: nat): FileRequest
    requires k < |fields| && fields[k].FileField? && IdTold(fields[..k]).Some?
  {
    FileRequest(user, IdTold(fields[..k]).value, FolderTold(fields[..k]),
                if fields[k].name.Some? then fields[k].name.value else "file.bin", fields[k].body)
  }

  /** One of the first `k` fields is a file sent under this id. */
  predicate SentUnder(fields: seq<Field>, k: nat, id: Uuid)
    requires k <= |fields|
  {
    exists j :: 0 <= j < k && fields[j].FileField? && IdTold(fields[..j]) == Some(id)
  }

  /** What an answer of `n` bytes says about field `j`: its row is completed with that size, and its file is delivered to the
      folder and name it was sent to, unless its id had been finished before. */
  predicate Acknowledged(before: World, w: World, user: User, fields: seq<Field>, j: nat, n: nat)
    requires j < |fields|
  {
    && fields[j].FileField? && IdTold(fields[..j]).Some?
    && var q := FileTold(user, fields, j);
       && AlreadyDone(w, user, q.id) && n == w.jobs[q.id].sizeBytes
       && (|| AlreadyDone(before, user, q.id) || SentUnder(fields, j, q.id)
           || (LocateFile(q).Some? && Delivered(w, user, q.id, LocateFile(q).value, q.body)))
  }

  /** Where the loop over the fields stands. */
  ghost predicate Reading(before: World, w: World, user: User, fields: seq<Field>, k: nat, form: FormState)
    requires k <= |fields|
  {
    && form.id == IdTold(fields[..k]) && (if form.path.Some? then form.path.value else "") == FolderTold(fields[..k])
    && (forall id :: AlreadyDone(w, user, id) ==> AlreadyDone(before, user, id) || SentUnder(fields, k, id))
    && (form.result.Some? ==> exists j :: 0 <= j < k && Acknowledged(before, w, user, fields, j, form.result.value))
  }

  lemma ToldNext(fields: seq<Field>, k: nat)
    requires k < |fields|
    ensures var last := fields[k];
            && FolderTold(fields[..k + 1]) == (if last.PathField? && last.text.Some? then last.text.value else FolderTold(fields[..k]))
            && IdTold(fields[..k + 1]) == (if last.IdField? && last.text.Some? && ParseUuid(Trim(last.text.value)).Some?
                                           then ParseUuid(Trim(last.text.value)) else IdTold(fields[..k]))
  {
    assert fields[..k + 1][..k] == fields[..k];
  }

  lemma SentNext(fields: seq<Field>, k: nat, id: Uuid)
    requires k < |fields|
    ensures SentUnder(fields, k, id) ==> SentUnder(fields, k + 1, id)
    ensures fields[k].FileField? && IdTold(fields[..k]) == Some(id) ==> SentUnder(fields, k + 1, id)
  {
  }

  /** Only the row of its own id can become completed by a file. */
  lemma OnlyOwnRow(w: World, q: FileRequest, f: FileFaults, now: nat, id: Uuid)
    requires id != q.id
    ensures AlreadyDone(WholeFile(w, q, f, now).0, q.user, id) <==> AlreadyDone(w, q.user, id)
  {
    WholeFileCases(w, q, f, now);
    if LocateFile(q).Some? && !(q.id in w.jobs && w.jobs[q.id].user != q.user) {
      FileFrame(w, q, LocateFile(q).value, f, now);
    }
  }

  /** After one file field. */
  lemma FileAcknowledged(before: World, w: World, user: User, fields: seq<Field>, k: nat, form: FormState)
    requires k < |fields| && Reading(before, w, user, fields, k, form) && fields[k].FileField? && form.id.Some?
    ensures var q := RequestOf(user, form, fields[k]);
            var (w', r) := WholeFile(w, q, fields[k].faults, fields[k].now);
            && q == FileTold(user, fields, k)
            && (r.Finished? ==> Acknowledged(before, w', user, fields, k, r.received))
  {
    var q := RequestOf(user, form, fields[k]);
    if AlreadyDone(w, user, q.id) {
      FileRefusals(w, q, fields[k].faults, fields[k].now);
    } else {
      AcknowledgedFileIsDelivered(w, q, fields[k].faults, fields[k].now);
    }
  }

  lemma ReadingAfterFile(before: World, w: World, user: User, fields: seq<Field>, k: nat, form: FormState)
    requires k < |fields| && Reading(before, w, user, fields, k, form) && fields[k].FileField? && form.id.Some?
    ensures var (w', r) := WholeFile(w, RequestOf(user, form, fields[k]), fields[k].faults, fields[k].now);
            r.Finished? ==> Reading(before, w', user, fields, k + 1, form.(result := Some(r.received)))
  {
    var q := RequestOf(user, form, fields[k]);
    var (w', r) := WholeFile(w, q, fields[k].faults, fields[k].now);
    ToldNext(fields, k);
    FileAcknowledged(before, w, user, fields, k, form);
    forall id | AlreadyDone(w', user, id) ensures AlreadyDone(before, user, id) || SentUnder(fields, k + 1, id) {
      SentNext(fields, k, id);
      if id != q.id {
        OnlyOwnRow(w, q, fields[k].faults, fields[k].now, id);
      }
    }
  }

  lemma ReadingAfterText(before: World, w: World, user: User, fields: seq<Field>, k: nat, form: FormState, form': FormState)
    requires k < |fields| && Reading(before, w, user, fields, k, form) && !fields[k].FileField?
    requires form'.result == form.result && form'.id == IdTold(fields[..k + 1])
    requires (if form'.path.Some? then form'.path.value else "") == FolderTold(fields[..k + 1])
    ensures Reading(before, w, user, fields, k + 1, form')
  {
    forall id | AlreadyDone(w, user, id) ensures AlreadyDone(before, user, id) || SentUnder(fields, k + 1, id) {
      SentNext(fields, k, id);
    }
  }

  lemma {:induction false} FieldsAcknowledge(before: World, w: World, user: User, fields: seq<Field>, k: nat, form: FormState)
    requires k <= |fields| && Reading(before, w, user, fields, k, form)
    ensures var (w', r) := Multipart(w, user, fields[k..], form);
            r.Finished? ==> exists j :: 0 <= j < |fields| && Acknowledged(before, w', user, fields, j, r.received)
    decreases |fields| - k
  {
    if k < |fields| {
      var rest := fields[k..];
      assert rest[0] == fields[k] && rest[1..] == fields[k + 1..];
      ToldNext(fields, k);
      match fields[k]
      case PathField(text) =>
        if text.Some? {
          ReadingAfterText(before, w, user, fields, k, form, form.(path := text));
          FieldsAcknowledge(before, w, user, fields, k + 1, form.(path := text));
        }
      case IdField(text) =>
        if text.Some? && ParseUuid(Trim(text.value)).Some? {
          ReadingAfterText(before, w, user, fields, k, form, form.(id := ParseUuid(Trim(text.value))));
          FieldsAcknowledge(before, w, user, fields, k + 1, form.(id := ParseUuid(Trim(text.value))));
        }
      case OtherField =>
        ReadingAfterText(before, w, user, fields, k, form, form);
        FieldsAcknowledge(before, w, user, fields, k + 1, form);
      case BrokenField =>
      case FileField(_, _, f, now) =>
        if form.id.Some? {
          var (w', r) := WholeFile(w, RequestOf(user, form, fields[k]), f, now);
          FileAcknowledged(before, w, user, fields, k, form);
          if r.Finished? && !AlreadyDone(w, user, form.id.value) {
            ReadingAfterFile(before, w, user, fields, k, form);
            FieldsAcknowledge(before, w', user, fields, k + 1, form.(result := Some(r.received)));
          }
        }
    }
  }

  /** Whatever fails, a multipart request that is acknowledged has delivered a file: to the folder of the last `path` field
      before it, under its own name and the last id before it. Only an id that was finished before, or sent twice in
      this request, is answered without that. */
  lemma AcknowledgedRequestIsDelivered(w: World, user: User, fields: seq<Field>)
    ensures var (w', r) := Multipart(w, user, fields, NO_FIELDS);
            r.Finished? ==> exists j :: 0 <= j < |fields| && Acknowledged(w, w', user, fields, j, r.received)
  {
    assert fields[0..] == fields && fields[..0] == [];
    FieldsAcknowledge(w, w, user, fields, 0, NO_FIELDS);
  }

  /** The file fields among the first `k`: each has an id, and no two have the same. */
  predicate DifferentIds(fields: seq<Field>, k: nat)
    requires k <= |fields|
  {
    && (forall i :: 0 <= i < k && fields[i].FileField? ==> IdTold(fields[..i]).Some?)
    && (forall i, j :: 0 <= i < j < k && fields[i].FileField? && fields[j].FileField? ==> IdTold(fields[..i]) != IdTold(fields[..j]))
  }

  /** The row of each of these files is completed with the size of its body. */
  predicate AllTaken(w: World, user: User, fields: seq<Field>, k: nat)
    requires k <= |fields| && DifferentIds(fields, |fields|)
  {
    forall i :: 0 <= i < k && fields[i].FileField? ==>
      && AlreadyDone(w, user, IdTold(fields[..i]).value)
      && w.jobs[IdTold(fields[..i]).value].sizeBytes == |fields[i].body|
  }

  /** The ids of the files to come are not finished yet. */
  predicate StillToCome(w: World, user: User, fields: seq<Field>, k: nat)
    requires k <= |fields| && DifferentIds(fields, |fields|)
  {
    forall i :: k <= i < |fields| && fields[i].FileField? ==> !AlreadyDone(w, user, IdTold(fields[..i]).value)
  }

  lemma OtherRowsStay(w: World, q: FileRequest, f: FileFaults, now: nat, id: Uuid)
    requires id != q.id && AlreadyDone(w, q.user, id)
    ensures var w' := WholeFile(w, q, f, now).0; AlreadyDone(w', q.user, id) && w'.jobs[id] == w.jobs[id]
  {
    WholeFileCases(w, q, f, now);
    if LocateFile(q).Some? && !(q.id in w.jobs && w.jobs[q.id].user != q.user) {
      FileFrame(w, q, LocateFile(q).value, f, now);
    }
  }

  lemma TakenAfterFile(w: World, user: User, fields: seq<Field>, k: nat, form: FormState)
    requires k < |fields| && DifferentIds(fields, |fields|) && AllTaken(w, user, fields, k) && StillToCome(w, user, fields, k)
    requires fields[k].FileField? && form.id == IdTold(fields[..k]) && form.id.Some?
    ensures var (w', r) := WholeFile(w, RequestOf(user, form, fields[k]), fields[k].faults, fields[k].now);
            r.Finished? ==> AllTaken(w', user, fields, k + 1) && StillToCome(w', user, fields, k + 1)
  {
    var q, f, now := RequestOf(user, form, fields[k]), fields[k].faults, fields[k].now;
    var (w', r) := WholeFile(w, q, f, now);
    AcknowledgedFileIsDelivered(w, q, f, now);
    forall i | 0 <= i < k && fields[i].FileField?
      ensures AlreadyDone(w', user, IdTold(fields[..i]).value)
              && w'.jobs[IdTold(fields[..i]).value].sizeBytes == |fields[i].body|
    {
      OtherRowsStay(w, q, f, now, IdTold(fields[..i]).value);
    }
    forall i | k < i < |fields| && fields[i].FileField? ensures !AlreadyDone(w', user, IdTold(fields[..i]).value) {
      OnlyOwnRow(w, q, f, now, IdTold(fields[..i]).value);
    }
  }

  lemma {:induction false} FieldsTakeAll(w: World, user: User, fields: seq<Field>, k: nat, form: FormState)
    requires k <= |fields| && DifferentIds(fields, |fields|) && AllTaken(w, user, fields, k) && StillToCome(w, user, fields, k)
    requires form.id == IdTold(fields[..k])
    ensures var (w', r) := Multipart(w, user, fields[k..], form);
            r.Finished? ==> AllTaken(w', user, fields, |fields|)
    decreases |fields| - k
  {
    if k < |fields| {
      var rest := fields[k..];
      assert rest[0] == fields[k] && rest[1..] == fields[k + 1..];
      ToldNext(fields, k);
      match fields[k]
      case PathField(text) => FieldsTakeAll(w, user, fields, k + 1, form.(path := text));
      case IdField(text) =>
        if text.Some? && ParseUuid(Trim(text.value)).Some? {
          FieldsTakeAll(w, user, fields, k + 1, form.(id := ParseUuid(Trim(text.value))));
        }
      case OtherField => FieldsTakeAll(w, user, fields, k + 1, form);
      case BrokenField =>
      case FileField(_, _, f, now) =>
        var (w', r) := WholeFile(w, RequestOf(user, form, fields[k]), f, now);
        TakenAfterFile(w, user, fields, k, form);
        if r.Finished? {
          FieldsTakeAll(w', user, fields, k + 1, form.(result := Some(r.received)));
        }
    }
  }

  /** Whatever fails, a multipart request for several files with different, unfinished ids that is acknowledged has completed
      every one of them. */
  lemma AcknowledgedRequestTakesAll(w: World, user: User, fields: seq<Field>)
    requires DifferentIds(fields, |fields|) && StillToCome(w, user, fields, 0)
    ensures var (w', r) := Multipart(w, user, fields, NO_FIELDS);
            r.Finished? ==> AllTaken(w', user, fields, |fields|)
  {
    assert fields[0..] == fields && fields[..0] == [];
    FieldsTakeAll(w, user, fields, 0, NO_FIELDS);
  }

  /** The request a client sends for one file, without faults: the file is delivered. */
  lemma OneFileRequestDelivers(w: World, q: FileRequest, idText: string, at: Place, now: nat)
    requires ParseUuid(Trim(idText)) == Some(q.id) && LocateFile(q) == Some(at)
    requires q.id in w.jobs ==> w.jobs[q.id].user == q.user && w.jobs[q.id].status != Completed
    ensures var fields := [PathField(Some(q.folder)), IdField(Some(idText)), FileField(Some(q.name), q.body, SMOOTH, now)];
            var (w', r) := Multipart(w, q.user, fields, NO_FIELDS);
            r == Finished(|q.body|) && Delivered(w', q.user, q.id, at, q.body)
  {
    var file := FileField(Some(q.name), q.body, SMOOTH, now);
    WholeFileDelivers(w, q, at, now);
    LastFile(w, q.user, file, FormState(Some(q.folder), Some(q.id), None));
    TwoTexts(w, q.user, q.folder, idText, q.id, [file]);
    assert [PathField(Some(q.folder)), IdField(Some(idText))] + [file] == [PathField(Some(q.folder)), IdField(Some(idText)), file];
  }

  lemma TwoTexts(w: World, user: User, folder: string, idText: string, id: Uuid, rest: seq<Field>)
    requires ParseUuid(Trim(idText)) == Some(id)
    ensures Multipart(w, user, [PathField(Some(folder)), IdField(Some(idText))] + rest, NO_FIELDS)
         == Multipart(w, user, rest, FormState(Some(folder), Some(id), None))
  {
    var fields := [PathField(Some(folder)), IdField(Some(idText))] + rest;
    assert fields[1..] == [IdField(Some(idText))] + rest && fields[1..][1..] == rest;
  }

  lemma LastFile(w: World, user: User, file: Field, form: FormState)
    requires file.FileField? && form.id.Some? && !AlreadyDone(w, user, form.id.value)
    ensures var (w', r) := WholeFile(w, RequestOf(user, form, file), file.faults, file.now);
            r.Finished? ==> Multipart(w, user, [file], form) == (w', r)
  {
    assert [file][1..] == [];
  }

  // ------------------------------------------------------------ chunks

  /** What was confirmed to the client before this request, as the staging file bears it out. */
  function Confirmed(w: World, q: ChunkRequest, at: Place): nat {
    if q.id in w.jobs then Min(w.jobs[q.id].received, FileLen(w, at.staging)) else 0
  }

  /** A chunk that names another offset is told the one to go on from, and one that names it is let through. */
  lemma OffsetsAgree(w: World, q: ChunkRequest, at: Place, f: ChunkFaults, now: nat)
    ensures var p := Prepare(w, q, at, f, now);
            && (p.Proceed? ==> p.received == q.offset == Confirmed(w, q, at))
            && (p.Answer? && p.response.ResumeFrom? ==> p.response.offset == Confirmed(w, q, at) != q.offset)
            && (f.reconcile.Done? && f.create.Done? && f.openOk && q.id in w.jobs && Passes(w, q, at) ==>
                  (p.Proceed? <==> q.offset == Confirmed(w, q, at)) && (p.Answer? ==> p.response.ResumeFrom?))
  {
  }

  /** The row is the caller's, unfinished and about this place and size, and the chunk fits. */
  predicate Passes(w: World, q: ChunkRequest, at: Place)
    requires q.id in w.jobs
  {
    && w.jobs[q.id].user == q.user && w.jobs[q.id].status != Completed
    && w.jobs[q.id].path == at.text && w.jobs[q.id].total == Some(q.total) && !TooLong(q)
  }

  predicate TooLong(q: ChunkRequest) {
    q.contentLength.Some? && q.offset + q.contentLength.value > q.total
  }

  lemma AcknowledgedFinish(w: World, q: ChunkRequest, at: Place, f: ChunkFaults, now: nat)
    requires q.id in w.jobs && at.staging in w.files && at.target != at.staging
    requires w.jobs[q.id].user == q.user && w.jobs[q.id].path == at.text && |w.files[at.staging]| == q.total
    ensures var (w', r) := Finish(w, q, at, f, now);
            r.Finished? ==>
              && r == Finished(q.total) && Delivered(w', q.user, q.id, at, w.files[at.staging])
              && w'.jobs[q.id].checksum == Some(Sha256(w.files[at.staging]))
  {
  }

  /** The body came to its end, with as many bytes as were announced, and was flushed. */
  predicate Arrived(q: ChunkRequest, f: ChunkFaults) {
    !f.broken && f.flushOk && (q.contentLength.Some? ==> q.contentLength.value == |q.body|)
  }

  /** Whatever fails, a chunk that is acknowledged arrived whole, and it has appended its body to what was staged: in the staging file with its row
      receiving, or, when it was the last, at the target with its row completed and the checksum of the whole. */
  lemma AcknowledgedChunkIsKept(w: World, q: ChunkRequest, at: Place, f: ChunkFaults, now: nat)
    requires at.target != at.staging && !AlreadyDone(w, q.user, q.id)
    ensures var p := Prepare(w, q, at, f, now);
            var (w', r) := ChunkAt(w, q, at, f, now);
            r.Continue? || r.Finished? ==>
              && p.Proceed? && at.staging in p.world.files && Arrived(q, f)
              && var whole := p.world.files[at.staging] + q.body;
                 && (r.Finished? ==>
                       && r == Finished(q.total) && |whole| == q.total && Delivered(w', q.user, q.id, at, whole)
                       && w'.jobs[q.id].checksum == Some(Sha256(whole)))
                 && (r.Continue? ==>
                       && r == Continue(|whole|) && |whole| < q.total
                       && at.staging in w'.files && w'.files[at.staging] == whole
                       && q.id in w'.jobs && w'.jobs[q.id].status == Receiving && w'.jobs[q.id].received == |whole|)
  {
    var p := Prepare(w, q, at, f, now);
    NoEarlyAcknowledgement(w, q, at, f, now);
    if p.Proceed? {
      PrepareIsExact(w, q, at, f, now);
      PreparedRow(w, q, at, f, now);
      AcknowledgedReceive(p.world, q, at, p.received, f, now);
    }
  }

  lemma NoEarlyAcknowledgement(w: World, q: ChunkRequest, at: Place, f: ChunkFaults, now: nat)
    requires !AlreadyDone(w, q.user, q.id)
    ensures var p := Prepare(w, q, at, f, now); p.Answer? ==> !p.response.Continue? && !p.response.Finished?
  {
  }

  lemma PreparedRow(w: World, q: ChunkRequest, at: Place, f: ChunkFaults, now: nat)
    requires Prepare(w, q, at, f, now).Proceed?
    ensures var p := Prepare(w, q, at, f, now);
            q.id in p.world.jobs && p.world.jobs[q.id].user == q.user && p.world.jobs[q.id].path == at.text
  {
  }

  lemma AcknowledgedReceive(w: World, q: ChunkRequest, at: Place, received: nat, f: ChunkFaults, now: nat)
    requires q.id in w.jobs && at.staging in w.files && at.target != at.staging
    requires w.jobs[q.id].user == q.user && w.jobs[q.id].path == at.text && q.offset == received == |w.files[at.staging]|
    ensures var (w', r) := Receive(w, q, at, received, f, now);
            var whole := w.files[at.staging] + q.body;
            && (r.Finished? || r.Continue? ==> Arrived(q, f))
            && (r.Finished? ==>
                  && r == Finished(q.total) && |whole| == q.total && Delivered(w', q.user, q.id, at, whole)
                  && w'.jobs[q.id].checksum == Some(Sha256(whole)))
            && (r.Continue? ==>
                  && r == Continue(|whole|) && |whole| < q.total
                  && at.staging in w'.files && w'.files[at.staging] == whole
                  && q.id in w'.jobs && w'.jobs[q.id].status == Receiving && w'.jobs[q.id].received == |whole|)
  {
    var before := w.files[at.staging];
    var w1 := SetFile(w, at.staging, WriteAt(before, q.offset, q.body));
    AppendsAtEnd(before, q.body);
    if received + |q.body| == q.total {
      AcknowledgedFinish(w1, q, at, f, now);
    }
  }

  lemma AppendsAtEnd(before: Bytes, body: Bytes)
    ensures WriteAt(before, |before|, body) == before + body
  {
    assert before[..|before|] == before;
  }

  /** When the last rename fails, nothing of the upload is lost: the staging file stays whole, and the row has failed, to be
      taken up again. */
  lemma FailedRenameKeepsStaging(w: World, q: ChunkRequest, at: Place, f: ChunkFaults, now: nat)
    requires q.id in w.jobs && at.staging in w.files && at.target != at.staging && f.hashOk && f.rename.RenameFailed?
    ensures var (w', r) := Finish(w, q, at, f, now);
            && r == Rejected(Internal) && w'.files == (if f.rename.targetRemoved then w.files - {at.target} else w.files)
            && w'.jobs.Keys == w.jobs.Keys && w'.jobs[q.id].received == w.jobs[q.id].received
            && (f.mark.TakesEffect() ==> w'.jobs[q.id].status == Failed && w'.jobs[q.id].lastError == Io)
  {
  }

  /** A finished upload is answered as finished, a request that is refused leaves everything as it was, and each refusal has
      its own answer. */
  lemma ChunkRefusals(w: World, q: ChunkRequest, f: ChunkFaults, now: nat, maxBytes: nat)
    ensures var answer := Chunk(w, q, f, now, maxBytes);
            var known := Parse(q.folder).Ok? && f.slot;
            var named := known && f.writeAccess && LocateChunk(q).Some?;
            && (!f.slot ==> answer == (w, Rejected(Unavailable)))
            && (f.slot && Parse(q.folder).Err? ==> answer == (w, Rejected(BadRequest)))
            && (known && !f.writeAccess ==> answer == (w, Rejected(Forbidden)))
            && (known && f.writeAccess && (Trim(q.name) == "" || FileNameOf(q.name).None?) ==> answer == (w, Rejected(BadRequest)))
            && (named && !f.parentOk ==> answer == (w, Rejected(Internal)))
            && (named && f.parentOk && q.total > maxBytes ==> answer == (w, Rejected(BadRequest)))
            && (named && f.parentOk && q.total <= maxBytes ==> answer == ChunkAt(w, q, LocateChunk(q).value, f, now))
  {
  }

  /** The same for a chunk whose place is known. */
  lemma RowRefusals(w: World, q: ChunkRequest, at: Place, f: ChunkFaults, now: nat)
    ensures var answer := ChunkAt(w, q, at, f, now);
            && (AlreadyDone(w, q.user, q.id) ==> answer == (w, Finished(w.jobs[q.id].received)))
            && (q.id in w.jobs && w.jobs[q.id].user == q.user && w.jobs[q.id].status != Completed ==>
                  && (w.jobs[q.id].path != at.text || w.jobs[q.id].total != Some(q.total) ==> answer == (w, Rejected(Conflict)))
                  && (w.jobs[q.id].path == at.text && w.jobs[q.id].total == Some(q.total) && TooLong(q) ==>
                        answer == (w, Rejected(BadRequest))))
            && (q.id in w.jobs && w.jobs[q.id].user != q.user ==>
                  answer == (w, Rejected(if f.quotaOk then Conflict else QuotaExceeded)))
            && (q.id !in w.jobs && !f.quotaOk ==> answer == (w, Rejected(QuotaExceeded)))
  {
  }

  // ------------------------------------------------------------ cancel

  /** Each answer of a cancel: unknown without a row of the caller, finished when it came too late, refused when the stored path
      cannot be read, stopped when its row has failed and, unless its removal did, its staging file is gone. Only then, or with
      an internal error, anything changes. */
  lemma CancelAnswers(w: World, user: User, id: Uuid, removeOk: bool, mark: Outcome, now: nat)
    ensures var (w', r) := Cancel(w, user, id, removeOk, mark, now);
            var own := id in w.jobs && w.jobs[id].user == user;
            && (r == Unknown <==> !own)
            && (r.Finished? <==> own && w.jobs[id].status == Completed)
            && (r.Finished? ==> r.received == w.jobs[id].received)
            && (r == Rejected(BadRequest) <==> own && w.jobs[id].status != Completed && Parse(w.jobs[id].path).Err?)
            && (r == Stopped || r == Rejected(Internal) <==> own && w.jobs[id].status != Completed && Parse(w.jobs[id].path).Ok?)
            && (r == Stopped ==> mark.Done?) && (r == Rejected(Internal) ==> !mark.Done?)
            && (r != Stopped && r != Rejected(Internal) ==> w' == w)
            && (r == Stopped ==>
                  && w'.jobs == w.jobs[id := w.jobs[id].(status := Failed, lastError := Cancelled, updatedAt := now)]
                  && var staging := StagingKey(user, Parse(w.jobs[id].path).value, id);
                     w'.files == if removeOk then w.files - {staging} else w.files)
  {
  }
}
