/** Exactly which targets completion can be trusted for (server/src/handlers/upload.rs). */
module UploadExactness {
  import opened Prelude
  import opened Paths
  import opened StagingNames
  import opened UploadModel
  import opened UploadNoHoles
  import opened UploadCollisions
  import opened UploadCompletion

  /** The target is absent or the whole source, and a completed row means it is there. */
  predicate Exact(w: World, tr: Transfer) {
    && (tr.at.target in w.files ==> w.files[tr.at.target] == tr.source)
    && (tr.id in w.jobs && w.jobs[tr.id].user == tr.user && w.jobs[tr.id].status == Completed ==> tr.at.target in w.files)
  }

  ghost predicate AllConfined(steps: seq<Step>, tr: Transfer) {
    forall i :: 0 <= i < |steps| ==> Confined(steps[i], tr)
  }

  /** Over every run in which this source is sent to this target and nobody else writes it. */
  ghost predicate AlwaysExact(tr: Transfer, maxBytes: nat) {
    forall steps :: AllConfined(steps, tr) ==> Exact(Run(EMPTY, steps, maxBytes), tr)
  }

  /** What a caller can check on the path. */
  predicate Trustworthy(path: RelPath) {
    !IsStagingName(FileName(path)) && (Parse(StoredText(path)).Ok? ==> Reparses(path))
  }

  /** Completion is exact over every such run if and only if the target's name holds no marker and its stored text reads back
      as no other path. */
  lemma ExactIff(user: User, id: Uuid, folder: string, name: string, path: RelPath, source: Bytes, now: nat, maxBytes: nat)
    requires Locate(folder, name) == Some(path) && |source| <= maxBytes
    ensures AlwaysExact(Transfer(user, id, PlaceOf(user, path, id), source), maxBytes) <==> Trustworthy(path)
  {
    var tr := Transfer(user, id, PlaceOf(user, path, id), source);
    var q := ChunkRequest(user, id, folder, name, 0, |source|, None, source);
    if Trustworthy(path) {
      forall steps | AllConfined(steps, tr) ensures Exact(Run(EMPTY, steps, maxBytes), tr) {
        CompletionIsExact(EMPTY, steps, maxBytes, user, id, path, source);
      }
    } else if IsStagingName(FileName(path)) {
      var steps := MarkedTargetIsLost(q, path, now, maxBytes);
    } else {
      var steps := MisreadTextIsBelieved(q, path, Parse(StoredText(path)).value, now, maxBytes);
    }
  }

  lemma ConfinedRequest(q: ChunkRequest, path: RelPath, f: ChunkFaults, now: nat)
    requires Locate(q.folder, q.name) == Some(path) && q.offset == 0 && |q.body| == q.total
    ensures Confined(ChunkStep(q, f, now), Transfer(q.user, q.id, PlaceOf(q.user, path, q.id), q.body))
  {
  }

  /** A target whose name holds the marker: the upload completes, and a cleanup takes its file. */
  lemma MarkedTargetIsLost(q: ChunkRequest, path: RelPath, now: nat, maxBytes: nat) returns (steps: seq<Step>)
    requires Locate(q.folder, q.name) == Some(path) && IsStagingName(FileName(path))
    requires q.offset == 0 && q.contentLength.None? && |q.body| == q.total <= maxBytes
    ensures var tr := Transfer(q.user, q.id, PlaceOf(q.user, path, q.id), q.body);
            AllConfined(steps, tr) && !Exact(Run(EMPTY, steps, maxBytes), tr)
  {
    var at := PlaceOf(q.user, path, q.id);
    assert |FileName(StagingPath(path, q.id))| > |FileName(path)|;
    WholeInOneChunk(EMPTY, q, at, now);
    FaultFreeChunk(EMPTY, q, at, now, maxBytes);
    ConfinedRequest(q, path, NO_FAULTS, now);
    steps := LostRun(ChunkStep(q, NO_FAULTS, now), Transfer(q.user, q.id, at, q.body), now, maxBytes);
  }

  lemma LostRun(s: Step, tr: Transfer, now: nat, maxBytes: nat) returns (steps: seq<Step>)
    requires Confined(s, tr) && IsStagingName(FileName(tr.at.target.path))
    requires var w := Apply(EMPTY, s, maxBytes);
             && w.jobs.Keys == {tr.id} && w.jobs[tr.id].user == tr.user && w.jobs[tr.id].status == Completed
    ensures AllConfined(steps, tr) && !Exact(Run(EMPTY, steps, maxBytes), tr)
  {
    var t := CleanupStep(true, {}, 0, now);
    steps := [s, t];
    RunsTwo(s, t, maxBytes);
    LosesFile(Apply(EMPTY, s, maxBytes), tr, now, maxBytes);
    ConfinedTwo(s, t, tr);
  }

  lemma LosesFile(w: World, tr: Transfer, now: nat, maxBytes: nat)
    requires IsStagingName(FileName(tr.at.target.path))
    requires w.jobs.Keys == {tr.id} && w.jobs[tr.id].user == tr.user && w.jobs[tr.id].status == Completed
    ensures !Exact(Apply(w, CleanupStep(true, {}, 0, now), maxBytes), tr)
  {
    GoneAfterCleanup(w, tr.at.target, now);
  }

  lemma GoneAfterCleanup(w: World, key: FileKey, now: nat)
    requires IsStagingName(FileName(key.path))
    requires forall id :: id in w.jobs ==> w.jobs[id].status == Completed
    ensures var w' := Cleanup(w, true, {}, 0, now); key !in w'.files && w'.jobs == w.jobs
  {
  }

  /** A request that gets as far as its row, and no further. */
  const NOT_OPENED: ChunkFaults := NO_FAULTS.(openOk := false)

  lemma OnlyClaims(q: ChunkRequest, at: Place, now: nat, maxBytes: nat)
    requires LocateChunk(q) == Some(at) && q.total <= maxBytes && q.offset == 0 && q.contentLength.None?
    ensures Apply(EMPTY, ChunkStep(q, NOT_OPENED, now), maxBytes)
         == World(map[q.id := Job(q.user, at.text, 0, Receiving, 0, Some(q.total), None, NoError, now)], map[at.staging := []])
  {
  }

  /** A target whose stored text reads back as another path: recovery finds a file there and completes the row. */
  lemma MisreadTextIsBelieved(q: ChunkRequest, path: RelPath, other: RelPath, now: nat, maxBytes: nat) returns (steps: seq<Step>)
    requires Locate(q.folder, q.name) == Some(path) && Parse(StoredText(path)) == Ok(other) && other != path
    requires !IsStagingName(FileName(path)) && q.offset == 0 && q.contentLength.None? && |q.body| == q.total <= maxBytes
    ensures var tr := Transfer(q.user, q.id, PlaceOf(q.user, path, q.id), q.body);
            AllConfined(steps, tr) && !Exact(Run(EMPTY, steps, maxBytes), tr)
  {
    var at := PlaceOf(q.user, path, q.id);
    OnlyClaims(q, at, now, maxBytes);
    ConfinedRequest(q, path, NOT_OPENED, now);
    StagingIsBound(q.user, path, q.id);
    steps := BelievedRun(ChunkStep(q, NOT_OPENED, now), Transfer(q.user, q.id, at, q.body), PlaceOf(q.user, other, q.id), now, maxBytes);
  }

  /** After a first request, another file at the place its text is read as, and a recovery. */
  lemma BelievedRun(s: Step, tr: Transfer, read: Place, now: nat, maxBytes: nat) returns (steps: seq<Step>)
    requires Confined(s, tr) && read.target != tr.at.target
    requires var w := Apply(EMPTY, s, maxBytes);
             && tr.id in w.jobs && w.jobs[tr.id].user == tr.user && w.jobs[tr.id].status == Receiving
             && PlaceRead(tr.user, w.jobs[tr.id].path, tr.id) == Some(read)
             && tr.at.target !in w.files && tr.at.staging in w.files
    ensures AllConfined(steps, tr) && !Exact(Run(EMPTY, steps, maxBytes), tr)
  {
    var w := Apply(EMPTY, s, maxBytes);
    var u := RecoverStep(tr.id, RowFaults(true, Done), now);
    if read.target == tr.at.staging {
      steps := [s, u];
      RunsTwo(s, u, maxBytes);
      Believes(w, tr, read, now, maxBytes);
    } else {
      var t := OtherWrite(read.target, Some([]));
      steps := [s, t, u];
      RunsThree(s, t, u, maxBytes);
      BelievesNewFile(w, tr, read, now, maxBytes);
      ConfinedThree(s, t, u, tr);
    }
  }

  lemma ConfinedTwo(s: Step, t: Step, tr: Transfer)
    requires Confined(s, tr) && Confined(t, tr)
    ensures AllConfined([s, t], tr)
  {
  }

  lemma ConfinedThree(s: Step, t: Step, u: Step, tr: Transfer)
    requires Confined(s, tr) && Confined(t, tr) && Confined(u, tr)
    ensures AllConfined([s, t, u], tr)
  {
    forall i | 0 <= i < 3 ensures Confined([s, t, u][i], tr) {
      if i == 0 {
        assert [s, t, u][i] == s;
      } else if i == 1 {
        assert [s, t, u][i] == t;
      } else {
        assert [s, t, u][i] == u;
      }
    }
  }

  lemma BelievesNewFile(w: World, tr: Transfer, read: Place, now: nat, maxBytes: nat)
    requires tr.id in w.jobs && w.jobs[tr.id].user == tr.user && w.jobs[tr.id].status == Receiving
    requires PlaceRead(tr.user, w.jobs[tr.id].path, tr.id) == Some(read)
    requires read.target != tr.at.target && read.target != tr.at.staging && tr.at.target !in w.files
    ensures var t := OtherWrite(read.target, Some([]));
            Confined(t, tr) && !Exact(Apply(Apply(w, t, maxBytes), RecoverStep(tr.id, RowFaults(true, Done), now), maxBytes), tr)
  {
    Believes(SetFile(w, read.target, []), tr, read, now, maxBytes);
  }

  lemma Believes(w: World, tr: Transfer, read: Place, now: nat, maxBytes: nat)
    requires tr.id in w.jobs && w.jobs[tr.id].user == tr.user && w.jobs[tr.id].status == Receiving
    requires PlaceRead(tr.user, w.jobs[tr.id].path, tr.id) == Some(read)
    requires read.target in w.files && tr.at.target !in w.files
    ensures !Exact(Apply(w, RecoverStep(tr.id, RowFaults(true, Done), now), maxBytes), tr)
  {
    BelievesFile(w, tr.id, tr.at, read, now, maxBytes);
  }

  lemma BelievesFile(w: World, id: Uuid, at: Place, read: Place, now: nat, maxBytes: nat)
    requires id in w.jobs && w.jobs[id].status == Receiving && PlaceRead(w.jobs[id].user, w.jobs[id].path, id) == Some(read)
    requires read.target in w.files && at.target !in w.files
    ensures var w' := Apply(w, RecoverStep(id, RowFaults(true, Done), now), maxBytes);
            && id in w'.jobs && w'.jobs[id].user == w.jobs[id].user && w'.jobs[id].status == Completed && at.target !in w'.files
  {
  }

  lemma RunsTwo(s: Step, t: Step, maxBytes: nat)
    ensures Run(EMPTY, [s, t], maxBytes) == Apply(Apply(EMPTY, s, maxBytes), t, maxBytes)
  {
    var w := Apply(EMPTY, s, maxBytes);
    assert [s, t][1..] == [t] && [t][1..] == [];
    assert Run(w, [t], maxBytes) == Run(Apply(w, t, maxBytes), [], maxBytes);
  }

  lemma RunsThree(s: Step, t: Step, u: Step, maxBytes: nat)
    ensures Run(EMPTY, [s, t, u], maxBytes) == Apply(Apply(Apply(EMPTY, s, maxBytes), t, maxBytes), u, maxBytes)
  {
    var w := Apply(EMPTY, s, maxBytes);
    var w' := Apply(w, t, maxBytes);
    assert [s, t, u][1..] == [t, u] && [t, u][1..] == [u] && [u][1..] == [];
    assert Run(w, [t, u], maxBytes) == Run(w', [u], maxBytes);
    assert Run(w', [u], maxBytes) == Run(Apply(w', u, maxBytes), [], maxBytes);
  }
}
