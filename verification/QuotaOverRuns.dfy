/** The storage quota over all runs of chunk uploads, lost commits and overlapping admissions included
    (server/src/handlers/upload.rs). */
module QuotaOverRuns {
  import opened Prelude
  import opened Paths
  import opened StagingNames
  import opened UploadModel
  import opened UploadNoHoles
  import opened UploadCompletion
  import opened Sums
  import opened Quota
  import opened QuotaLedger

  /** Chunk uploads of this account to the given targets, anything by other accounts, and every cancel,
      sweep, recovery, cleanup and crash; other handlers only delete the account's files. Commits may be lost, and
      rows may be opened at any time. */
  predicate Ordinary(s: Step, user: User, targets: Targets) {
    match s
    case ChunkStep(q, _, _) =>
      q.user == user && Locate(q.folder, q.name).Some? ==> targets(Locate(q.folder, q.name).value)
    case FileStep(q, _, _) => q.user != user
    case OtherWrite(key, content) => key.user == user ==> content.None?
    case _ => true
  }

  /** What a client can check: without backslashes in what it sends, its target has a plain path. */
  lemma PlainRequest(q: ChunkRequest)
    requires '\\' !in q.folder && '\\' !in q.name
    ensures Locate(q.folder, q.name).Some? ==> PlainPath(Locate(q.folder, q.name).value)
  {
    if Locate(q.folder, q.name).Some? {
      ParseShape(q.folder);
      FileNameIsNormal(q.name);
      var dir, file := Parse(q.folder).value, FileNameOf(q.name).value;
      forall i | 0 <= i < |dir + [file]| ensures '\\' !in (dir + [file])[i] && IsNormal((dir + [file])[i]) {
        assert i < |dir| ==> (dir + [file])[i] == dir[i];
      }
    }
  }

  /** What a step opens for the account; a refused request leaves the world as it is and opens nothing. */
  function OpenedBy(w: World, s: Step, user: User, maxBytes: nat): nat {
    if s.ChunkStep? && Opens(w, s.q, user) && Apply(w, s, maxBytes) != w then s.q.total else 0
  }

  /** What a run opens for the account in all. */
  function Opened(w: World, steps: seq<Step>, user: User, maxBytes: nat): nat
    decreases steps
  {
    if steps == [] then 0 else OpenedBy(w, steps[0], user, maxBytes) + Opened(Apply(w, steps[0], maxBytes), steps[1..], user, maxBytes)
  }

  lemma LocatedPlace(q: ChunkRequest, user: User, targets: Targets)
    requires LocateChunk(q).Some? && (q.user == user ==> targets(Locate(q.folder, q.name).value))
    ensures var at := LocateChunk(q).value;
            && !WalkOf(user)(at.staging) && at.target != at.staging && (q.user != user ==> !WalkOf(user)(at.target))
            && (q.user == user ==> TextsOf(user, targets)(at.target) == Some(at.text))
  {
    PlaceIsUncounted(q.user, Locate(q.folder, q.name).value, q.id, user);
  }

  lemma LedgerCosts(w: World, q: ChunkRequest, at: Place, user: User, ledger: Ledger)
    ensures Sum(LedgerAfter(w, q, at, user, ledger)) <= Sum(ledger) + (if Opens(w, q, user) then q.total else 0)
  {
    RaiseCosts(ledger, at.text, q.total);
  }

  lemma ChunkStepAccounts(base: map<FileKey, Bytes>, w: World, w': World, q: ChunkRequest, at: Option<Place>, f: ChunkFaults, now: nat,
                          user: User, counted: Counted, texts: Texts, ledger: Ledger) returns (ledger': Ledger)
    requires Accounted(base, w, user, counted, texts, ledger)
    requires at.Some? ==>
               && !counted(at.value.staging) && at.value.target != at.value.staging
               && (q.user != user ==> !counted(at.value.target))
               && (q.user == user ==> texts(at.value.target) == Some(at.value.text))
    requires w' == w || (at.Some? && w' == ChunkAt(w, q, at.value, f, now).0)
    ensures Accounted(base, w', user, counted, texts, ledger')
    ensures Sum(ledger') <= Sum(ledger) + (if Opens(w, q, user) && w' != w then q.total else 0)
  {
    if w' == w {
      ledger' := ledger;
    } else {
      ChunkAccounts(base, w, q, at.value, f, now, user, counted, texts, ledger);
      LedgerCosts(w, q, at.value, user, ledger);
      ledger' := LedgerAfter(w, q, at.value, user, ledger);
    }
  }

  lemma ForeignFileAccounts(base: map<FileKey, Bytes>, w: World, q: FileRequest, at: Place, f: FileFaults, now: nat,
                            user: User, counted: Counted, texts: Texts, ledger: Ledger)
    requires Accounted(base, w, user, counted, texts, ledger)
    requires q.user != user && !counted(at.staging) && !counted(at.target)
    requires !(q.id in w.jobs && w.jobs[q.id].user != q.user)
    ensures Accounted(base, StageFile(w, q, at, f, now).0, user, counted, texts, ledger)
  {
    FileFrame(w, q, at, f, now);
    ShrinkingAccounts(base, w, StageFile(w, q, at, f, now).0, user, counted, texts, ledger);
  }

  lemma FileStepAccounts(base: map<FileKey, Bytes>, w: World, q: FileRequest, f: FileFaults, now: nat, user: User, texts: Texts, ledger: Ledger)
    requires Accounted(base, w, user, WalkOf(user), texts, ledger) && q.user != user
    ensures Accounted(base, WholeFile(w, q, f, now).0, user, WalkOf(user), texts, ledger)
  {
    WholeFileCases(w, q, f, now);
    if LocateFile(q).Some? && !(q.id in w.jobs && w.jobs[q.id].user != q.user) {
      PlaceIsUncounted(q.user, Parse(q.folder).value + [FileNameOf(q.name).value], q.id, user);
      ForeignFileAccounts(base, w, q, LocateFile(q).value, f, now, user, WalkOf(user), texts, ledger);
    }
  }

  lemma RecoverStepAccounts(base: map<FileKey, Bytes>, w: World, id: Uuid, f: RowFaults, now: nat, user: User, texts: Texts, ledger: Ledger)
    requires Accounted(base, w, user, WalkOf(user), texts, ledger)
    ensures Accounted(base, RecoverRow(w, id, f, now), user, WalkOf(user), texts, ledger)
  {
    RecoverShrinks(w, id, f, now, user);
    ShrinkingAccounts(base, w, RecoverRow(w, id, f, now), user, WalkOf(user), texts, ledger);
  }

  lemma ExpireStepAccounts(base: map<FileKey, Bytes>, w: World, id: Uuid, f: RowFaults, now: nat, user: User, texts: Texts, ledger: Ledger)
    requires Accounted(base, w, user, WalkOf(user), texts, ledger)
    ensures Accounted(base, ExpireRow(w, id, f, now), user, WalkOf(user), texts, ledger)
  {
    ExpireFrame(w, id, f.removeOk, now);
    ShrinkingAccounts(base, w, ExpireRow(w, id, f, now), user, WalkOf(user), texts, ledger);
  }

  lemma CancelStepAccounts(base: map<FileKey, Bytes>, w: World, caller: User, id: Uuid, removeOk: bool, mark: Outcome, now: nat,
                           user: User, texts: Texts, ledger: Ledger)
    requires Accounted(base, w, user, WalkOf(user), texts, ledger)
    ensures Accounted(base, Cancel(w, caller, id, removeOk, mark, now).0, user, WalkOf(user), texts, ledger)
  {
    CancelFrame(w, caller, id, removeOk, mark, now);
    ShrinkingAccounts(base, w, Cancel(w, caller, id, removeOk, mark, now).0, user, WalkOf(user), texts, ledger);
  }

  lemma CrashStepAccounts(base: map<FileKey, Bytes>, w: World, key: FileKey, kept: Option<nat>, user: User, texts: Texts, ledger: Ledger)
    requires Accounted(base, w, user, WalkOf(user), texts, ledger)
    ensures Accounted(base, Crash(w, key, kept), user, WalkOf(user), texts, ledger)
  {
    ShrinkingAccounts(base, w, Crash(w, key, kept), user, WalkOf(user), texts, ledger);
  }

  lemma StepAccounts(base: map<FileKey, Bytes>, w: World, s: Step, user: User, targets: Targets, maxBytes: nat, ledger: Ledger) returns (ledger': Ledger)
    requires Accounted(base, w, user, WalkOf(user), TextsOf(user, targets), ledger) && Ordinary(s, user, targets)
    ensures Accounted(base, Apply(w, s, maxBytes), user, WalkOf(user), TextsOf(user, targets), ledger')
    ensures Sum(ledger') <= Sum(ledger) + OpenedBy(w, s, user, maxBytes)
  {
    ledger' := ledger;
    match s
    case ChunkStep(q, f, now) =>
      ChunkCases(w, q, f, now, maxBytes);
      if LocateChunk(q).Some? {
        LocatedPlace(q, user, targets);
      }
      ledger' := ChunkStepAccounts(base, w, Apply(w, s, maxBytes), q, LocateChunk(q), f, now, user, WalkOf(user), TextsOf(user, targets), ledger);
    case FileStep(q, f, now) => FileStepAccounts(base, w, q, f, now, user, TextsOf(user, targets), ledger);
    case RecoverStep(id, rf, now) => RecoverStepAccounts(base, w, id, rf, now, user, TextsOf(user, targets), ledger);
    case ExpireStep(id, rf, now) => ExpireStepAccounts(base, w, id, rf, now, user, TextsOf(user, targets), ledger);
    case CancelStep(caller, id, removeOk, mark, now) =>
      CancelStepAccounts(base, w, caller, id, removeOk, mark, now, user, TextsOf(user, targets), ledger);
    case CrashStep(key, kept) => CrashStepAccounts(base, w, key, kept, user, TextsOf(user, targets), ledger);
    case _ => ShrinkingAccounts(base, w, Apply(w, s, maxBytes), user, WalkOf(user), TextsOf(user, targets), ledger);
  }

  lemma {:induction false} RunAccounts(base: map<FileKey, Bytes>, w: World, steps: seq<Step>, user: User, targets: Targets, maxBytes: nat, ledger: Ledger)
    returns (ledger': Ledger)
    requires Accounted(base, w, user, WalkOf(user), TextsOf(user, targets), ledger)
    requires forall i :: 0 <= i < |steps| ==> Ordinary(steps[i], user, targets)
    ensures Accounted(base, Run(w, steps, maxBytes), user, WalkOf(user), TextsOf(user, targets), ledger')
    ensures Sum(ledger') <= Sum(ledger) + Opened(w, steps, user, maxBytes)
    decreases steps
  {
    ledger' := ledger;
    if steps != [] {
      ledger' := StepAccounts(base, w, steps[0], user, targets, maxBytes, ledger);
      ledger' := RunAccounts(base, Apply(w, steps[0], maxBytes), steps[1..], user, targets, maxBytes, ledger');
    }
  }

  /** A run of such steps, with targets that have one text each. */
  ghost predicate OrdinaryRun(steps: seq<Step>, user: User, targets: Targets) {
    OneTextEach(targets) && forall i :: 0 <= i < |steps| ==> Ordinary(steps[i], user, targets)
  }

  /** Over every ordinary run the usage stays within what was committed at the start and what was opened since. */
  lemma UsageOverRuns(w: World, steps: seq<Step>, user: User, targets: Targets, maxBytes: nat)
    ensures OrdinaryRun(steps, user, targets) ==>
            Used(Run(w, steps, maxBytes), WalkOf(user)) <= Committed(w, user, WalkOf(user)) + Opened(w, steps, user, maxBytes)
  {
    if OrdinaryRun(steps, user, targets) {
      var ledger := AccountedAtFirst(w, user, WalkOf(user), TextsOf(user, targets));
      var ledger' := RunAccounts(w.files, w, steps, user, targets, maxBytes, ledger);
      TextsAreDistinct(user, targets);
      AccountedBounds(w.files, Run(w, steps, maxBytes), user, WalkOf(user), TextsOf(user, targets), ledger');
    }
  }

  /** The quota over runs. The check and the claim of an upload are two steps: between them, and afterwards, anything
      may happen. Whenever the check passed in `w`, the usage at the end of any ordinary run from there, the claim
      included, exceeds the limit by no more than the bytes staged at the check and what the run opened besides the
      checked upload. */
  lemma QuotaBound(w: World, user: User, total: nat, id: Uuid, steps: seq<Step>, targets: Targets,
                   maxBytes: nat, limit: nat)
    requires limit < U64_MAX && !(id in w.jobs && Active(w.jobs[id], user))
    requires QuotaAllows(w, user, WalkOf(user), total, id, limit)
    ensures OrdinaryRun(steps, user, targets) ==>
            Used(Run(w, steps, maxBytes), WalkOf(user)) + total
              <= limit + StagedBytes(w, user) + Opened(w, steps, user, maxBytes)
  {
    QuotaCheckIsExact(w, user, WalkOf(user), total, id, limit);
    UsageOverRuns(w, steps, user, targets, maxBytes);
  }

  /** The same when the usage reading of the check was off: a stale reading costs no more than what it missed. */
  lemma QuotaBoundWithReading(w: World, user: User, reading: nat, total: nat, id: Uuid, steps: seq<Step>, targets: Targets,
                              maxBytes: nat, limit: nat)
    requires limit < U64_MAX && !(id in w.jobs && Active(w.jobs[id], user))
    requires SaturatingAdd(SaturatingAdd(reading, Reserved(w, user, id)), total) <= limit
    ensures OrdinaryRun(steps, user, targets) ==>
            Used(Run(w, steps, maxBytes), WalkOf(user)) + total + reading
              <= limit + StagedBytes(w, user) + Opened(w, steps, user, maxBytes) + Used(w, WalkOf(user))
  {
    CommittedSplits(w, user);
    assert Outstanding(w, user) - {id} == Outstanding(w, user);
    UsageOverRuns(w, steps, user, targets, maxBytes);
  }

  /** When the run opens nothing besides the checked upload, the usage stays within the limit plus the staged bytes,
      lost commits and crashes included. */
  lemma QuotaHolds(w: World, user: User, total: nat, id: Uuid, steps: seq<Step>, targets: Targets,
                   maxBytes: nat, limit: nat)
    requires limit < U64_MAX && !(id in w.jobs && Active(w.jobs[id], user))
    requires QuotaAllows(w, user, WalkOf(user), total, id, limit)
    requires Opened(w, steps, user, maxBytes) <= total
    ensures OrdinaryRun(steps, user, targets) ==>
            Used(Run(w, steps, maxBytes), WalkOf(user)) <= limit + StagedBytes(w, user)
  {
    QuotaBound(w, user, total, id, steps, targets, maxBytes, limit);
  }

  predicate AnyPath(path: RelPath) {
    true
  }

  /** The requests of the account hold no backslashes. */
  predicate NoBackslashes(steps: seq<Step>, user: User) {
    forall i :: 0 <= i < |steps| && steps[i].ChunkStep? && steps[i].q.user == user ==>
      '\\' !in steps[i].q.folder && '\\' !in steps[i].q.name
  }

  /** The case a client can check: its requests hold no backslashes. */
  lemma QuotaHoldsWithoutBackslashes(w: World, user: User, total: nat, id: Uuid, steps: seq<Step>, maxBytes: nat, limit: nat)
    requires limit < U64_MAX && !(id in w.jobs && Active(w.jobs[id], user))
    requires QuotaAllows(w, user, WalkOf(user), total, id, limit)
    requires Opened(w, steps, user, maxBytes) <= total
    ensures NoBackslashes(steps, user) && (forall i :: 0 <= i < |steps| ==> Ordinary(steps[i], user, AnyPath)) ==>
              Used(Run(w, steps, maxBytes), WalkOf(user)) <= limit + StagedBytes(w, user)
  {
    if NoBackslashes(steps, user) && forall i :: 0 <= i < |steps| ==> Ordinary(steps[i], user, AnyPath) {
      forall i | 0 <= i < |steps| ensures Ordinary(steps[i], user, PlainPath) {
        assert Ordinary(steps[i], user, AnyPath);
        if steps[i].ChunkStep? && steps[i].q.user == user {
          PlainRequest(steps[i].q);
        }
      }
      PlainPathsHaveOneTextEach();
      assert OrdinaryRun(steps, user, PlainPath);
    }
    QuotaHolds(w, user, total, id, steps, PlainPath, maxBytes, limit);
  }
}
