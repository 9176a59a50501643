/** What a restart leaves behind: cleanup of stale staging files, then recovery of the job table
    (server/src/main.rs runs them in this order, and does not start when the recovery fails). */
module UploadStartup {
  import opened Prelude
  import opened Paths
  import opened StagingNames
  import opened UploadModel
  import opened UploadNoHoles
  import opened UploadCompletion

  /** The faults of one startup: whether the session query works, which files the cleanup misses, and the
      rows the recovery fetches with theirs. */
  datatype StartupFaults = StartupFaults(queryOk: bool, spared: set<FileKey>, rows: seq<Fetched>)

  function Startup(w: World, f: StartupFaults, ttl: nat, now: nat): (World, bool) {
    Recover(Cleanup(w, f.queryOk, f.spared, ttl, now), f.rows, now)
  }

  predicate UpdatesWork(rows: seq<Fetched>) {
    forall i :: 0 <= i < |rows| ==> rows[i].faults.update.Done?
  }

  /** What recovery makes of every row: nothing is left in `staging`, and a receiving row can be located and
      has no file at its target. */
  predicate Recovered(w: World, id: Uuid)
    requires id in w.jobs
  {
    var job := w.jobs[id];
    && job.status != Staging
    && (job.status == Receiving ==>
          && PlaceRead(job.user, job.path, id).Some?
          && PlaceRead(job.user, job.path, id).value.target !in w.files
          && (job.received == 0 ==> job.sizeBytes == 0))
  }

  /** Row and disk agree: a receiving row has a staging file of exactly its confirmed length. */
  predicate Settled(w: World, id: Uuid)
    requires id in w.jobs
  {
    var job := w.jobs[id];
    && Recovered(w, id)
    && (job.status == Receiving ==> FileLen(w, PlaceRead(job.user, job.path, id).value.staging) == job.received)
  }

  /** The staging file holds bytes that are not the confirmed ones. */
  predicate StaleStaging(w: World, id: Uuid)
    requires id in w.jobs
  {
    var job := w.jobs[id];
    var at := PlaceRead(job.user, job.path, id);
    at.Some? && FileLen(w, at.value.staging) > 0 && FileLen(w, at.value.staging) != job.received
  }

  /** Files are only ever removed, and only those of the given transfers. */
  ghost predicate OnlyRemoves(a: World, b: World, rows: seq<Fetched>) {
    && (forall k :: k in b.files ==> k in a.files && b.files[k] == a.files[k])
    && (forall k :: k in a.files && k !in b.files ==>
          TransferOf(k).Some? && exists i :: 0 <= i < |rows| && rows[i].id == TransferOf(k).value)
  }

  lemma ReadStagingIsBound(user: User, text: string, id: Uuid)
    ensures PlaceRead(user, text, id).Some? ==> TransferOf(PlaceRead(user, text, id).value.staging) == Some(id)
  {
    if PlaceRead(user, text, id).Some? {
      StagingIsBound(user, Parse(text).value, id);
    }
  }

  /** One recovered row is settled exactly when its removal worked, or there were no stale bytes to remove,
      or a file at its target completed it. */
  lemma RecoverRowSettles(w: World, id: Uuid, f: RowFaults, now: nat)
    requires id in w.jobs && Unfinished(w.jobs[id].status) && f.update.Done?
    ensures var w' := RecoverRow(w, id, f, now);
            && w'.jobs.Keys == w.jobs.Keys
            && (forall i :: i in w.jobs && i != id ==> w'.jobs[i] == w.jobs[i])
            && Recovered(w', id) && w'.jobs[id].updatedAt == now
            && (w'.jobs[id].status == Receiving && !Settled(w', id) ==> w'.jobs[id].received == 0)
            && (Settled(w', id) <==> f.removeOk || !StaleStaging(w, id) || w'.jobs[id].status == Completed)
  {
    var job := w.jobs[id];
    var at := PlaceRead(job.user, job.path, id);
    if at.Some? && at.value.target !in w.files {
      RecoverInPlace(w, id, at.value, f, now);
    }
  }

  lemma RecoverInPlace(w: World, id: Uuid, at: Place, f: RowFaults, now: nat)
    requires id in w.jobs && Unfinished(w.jobs[id].status) && at.target !in w.files && f.update.Done?
    requires PlaceRead(w.jobs[id].user, w.jobs[id].path, id) == Some(at)
    ensures var w' := RecoverRow(w, id, f, now);
            && w'.jobs[id].status == Receiving
            && w'.jobs[id].user == w.jobs[id].user && w'.jobs[id].path == w.jobs[id].path
            && (w'.jobs[id].received == 0 ==> w'.jobs[id].sizeBytes == 0)
            && at.target !in w'.files
            && (FileLen(w', at.staging) == w'.jobs[id].received <==>
                f.removeOk || FileLen(w, at.staging) == 0 || FileLen(w, at.staging) == w.jobs[id].received)
            && (FileLen(w', at.staging) != w'.jobs[id].received ==> w'.jobs[id].received == 0)
  {
  }

  lemma RecoverRowRemoves(w: World, id: Uuid, f: RowFaults, now: nat)
    ensures OnlyRemoves(w, RecoverRow(w, id, f, now), [Fetched(id, f)])
    ensures RecoverRow(w, id, f, now).jobs.Keys == w.jobs.Keys
  {
    RecoverFrame(w, id, f.removeOk, now);
    assert [Fetched(id, f)][0].id == id;
    if id in w.jobs {
      ReadStagingIsBound(w.jobs[id].user, w.jobs[id].path, id);
    }
  }

  /** Whatever fails, recovery removes nothing but staging files of the rows it fetched. */
  lemma {:induction false} RecoverOnlyRemoves(w: World, rows: seq<Fetched>, now: nat)
    ensures OnlyRemoves(w, Recover(w, rows, now).0, rows)
    ensures Recover(w, rows, now).0.jobs.Keys == w.jobs.Keys
    decreases rows
  {
    if rows != [] {
      var w1 := RecoverRow(w, rows[0].id, rows[0].faults, now);
      RecoverRowRemoves(w, rows[0].id, rows[0].faults, now);
      MoreRows(w, w1, [rows[0]], rows);
      if rows[0].faults.update.Done? {
        RecoverOnlyRemoves(w1, rows[1..], now);
        MoreRows(w1, Recover(w1, rows[1..], now).0, rows[1..], rows);
      }
    }
  }

  lemma MoreRows(a: World, b: World, few: seq<Fetched>, rows: seq<Fetched>)
    requires rows != [] && OnlyRemoves(a, b, few) && (few == rows[1..] || few == rows[..1])
    ensures OnlyRemoves(a, b, rows)
  {
    forall k | k in a.files && k !in b.files
      ensures exists i :: 0 <= i < |rows| && rows[i].id == TransferOf(k).value
    {
      var i :| 0 <= i < |few| && few[i].id == TransferOf(k).value;
      var j := if few == rows[..1] then i else i + 1;
      assert rows[j].id == TransferOf(k).value;
    }
  }

  /** Staging files of other transfers are out of reach of a recovery. */
  lemma RowStays(a: World, b: World, id: Uuid, rows: seq<Fetched>)
    requires id in a.jobs && id in b.jobs && b.jobs[id] == a.jobs[id]
    requires OnlyRemoves(a, b, rows) && forall i :: 0 <= i < |rows| ==> rows[i].id != id
    ensures StaleStaging(b, id) == StaleStaging(a, id)
    ensures Recovered(a, id) ==> Recovered(b, id) && Settled(b, id) == Settled(a, id)
  {
    ReadStagingIsBound(a.jobs[id].user, a.jobs[id].path, id);
  }

  predicate FetchedUnfinished(w: World, rows: seq<Fetched>) {
    && (forall i :: 0 <= i < |rows| ==> rows[i].id in w.jobs && Unfinished(w.jobs[rows[i].id].status))
    && (forall i, j :: 0 <= i < j < |rows| ==> rows[i].id != rows[j].id)
  }

  /** What recovery owes one fetched row. */
  ghost predicate RowDone(w: World, w': World, r: Fetched, now: nat)
    requires r.id in w.jobs
  {
    && r.id in w'.jobs && Recovered(w', r.id) && w'.jobs[r.id].updatedAt == now
    && (w'.jobs[r.id].status == Receiving && !Settled(w', r.id) ==> w'.jobs[r.id].received == 0)
    && (Settled(w', r.id) <==> r.faults.removeOk || !StaleStaging(w, r.id) || w'.jobs[r.id].status == Completed)
  }

  lemma FirstRowDone(w: World, rows: seq<Fetched>, now: nat, w': World)
    requires FetchedUnfinished(w, rows) && UpdatesWork(rows) && rows != []
    requires var w1 := RecoverRow(w, rows[0].id, rows[0].faults, now);
             && OnlyRemoves(w1, w', rows[1..]) && w'.jobs.Keys == w1.jobs.Keys
             && rows[0].id in w1.jobs && w'.jobs[rows[0].id] == w1.jobs[rows[0].id]
    ensures RowDone(w, w', rows[0], now)
  {
    var w1 := RecoverRow(w, rows[0].id, rows[0].faults, now);
    RecoverRowSettles(w, rows[0].id, rows[0].faults, now);
    RowStays(w1, w', rows[0].id, rows[1..]);
  }

  lemma LaterRowDone(w: World, rows: seq<Fetched>, now: nat, w': World, i: nat)
    requires FetchedUnfinished(w, rows) && UpdatesWork(rows) && 0 < i < |rows|
    requires var w1 := RecoverRow(w, rows[0].id, rows[0].faults, now);
             rows[i].id in w1.jobs && RowDone(w1, w', rows[i], now)
    ensures RowDone(w, w', rows[i], now)
  {
    RecoverRowSettles(w, rows[0].id, rows[0].faults, now);
    RecoverRowRemoves(w, rows[0].id, rows[0].faults, now);
    RowStays(w, RecoverRow(w, rows[0].id, rows[0].faults, now), rows[i].id, [rows[0]]);
  }

  lemma {:induction false} RecoverSettlesAll(w: World, rows: seq<Fetched>, now: nat)
    requires FetchedUnfinished(w, rows) && UpdatesWork(rows)
    ensures var (w', ok) := Recover(w, rows, now);
            && ok && w'.jobs.Keys == w.jobs.Keys
            && (forall i :: 0 <= i < |rows| ==> RowDone(w, w', rows[i], now))
            && (forall id :: id in w.jobs && (forall i :: 0 <= i < |rows| ==> rows[i].id != id) ==> w'.jobs[id] == w.jobs[id])
    decreases rows
  {
    if rows != [] {
      var w1, rest := RecoverRow(w, rows[0].id, rows[0].faults, now), rows[1..];
      RecoverRowSettles(w, rows[0].id, rows[0].faults, now);
      assert FetchedUnfinished(w1, rest);
      RecoverSettlesAll(w1, rest, now);
      RecoverOnlyRemoves(w1, rest, now);
      AllRowsDone(w, rows, now, Recover(w1, rest, now).0);
      forall id | id in w.jobs && forall i :: 0 <= i < |rows| ==> rows[i].id != id
        ensures Recover(w1, rest, now).0.jobs[id] == w.jobs[id]
      {
        assert forall i :: 0 <= i < |rest| ==> rest[i].id == rows[i + 1].id;
      }
    }
  }

  lemma AllRowsDone(w: World, rows: seq<Fetched>, now: nat, w': World)
    requires FetchedUnfinished(w, rows) && UpdatesWork(rows) && rows != []
    requires var w1 := RecoverRow(w, rows[0].id, rows[0].faults, now);
             && OnlyRemoves(w1, w', rows[1..]) && w'.jobs.Keys == w1.jobs.Keys == w.jobs.Keys
             && (forall i :: 0 <= i < |rows[1..]| ==> RowDone(w1, w', rows[1..][i], now))
             && (forall id :: id in w1.jobs && (forall i :: 0 <= i < |rows[1..]| ==> rows[1..][i].id != id) ==> w'.jobs[id] == w1.jobs[id])
    ensures forall i :: 0 <= i < |rows| ==> RowDone(w, w', rows[i], now)
  {
    assert forall i :: 0 <= i < |rows[1..]| ==> rows[1..][i] == rows[i + 1] && rows[i + 1].id != rows[0].id;
    FirstRowDone(w, rows, now, w');
    forall i | 0 < i < |rows| ensures RowDone(w, w', rows[i], now) {
      assert rows[i] == rows[1..][i - 1];
      LaterRowDone(w, rows, now, w', i);
    }
  }

  /** Recovery succeeds exactly when no update of a fetched row fails. */
  lemma {:induction false} RecoverSucceeds(w: World, rows: seq<Fetched>, now: nat)
    ensures Recover(w, rows, now).1 <==> UpdatesWork(rows)
    decreases rows
  {
    if rows != [] {
      RecoverSucceeds(RecoverRow(w, rows[0].id, rows[0].faults, now), rows[1..], now);
      assert rows == [rows[0]] + rows[1..];
    }
  }

  /** Startup reconciliation. Of all files only marker-named ones are removed, whatever fails. When the startup
      succeeds nothing is left in `staging`, and a row agrees with the disk exactly when its removal worked or
      there was nothing stale to remove. */
  lemma StartupReconciles(w: World, f: StartupFaults, ttl: nat, now: nat)
    requires Selects(f.rows, UnfinishedRows(w))
    ensures var (w', ok) := Startup(w, f, ttl, now);
            var cleaned := Cleanup(w, f.queryOk, f.spared, ttl, now);
            && w'.jobs.Keys == w.jobs.Keys && (ok <==> UpdatesWork(f.rows))
            && (forall k :: k in w'.files ==> k in w.files && w'.files[k] == w.files[k])
            && (forall k :: k in w.files && k !in w'.files ==> IsStagingName(FileName(k.path)))
            && (ok ==>
                  && (forall id :: id in w'.jobs ==> Recovered(w', id))
                  && (forall id :: id in w'.jobs && w'.jobs[id].status == Receiving ==> w'.jobs[id].updatedAt == now)
                  && (forall i :: 0 <= i < |f.rows| ==> RowDone(cleaned, w', f.rows[i], now)))
  {
    var w1 := Cleanup(w, f.queryOk, f.spared, ttl, now);
    RecoverSucceeds(w1, f.rows, now);
    RecoverOnlyRemoves(w1, f.rows, now);
    if UpdatesWork(f.rows) {
      RecoverSettlesAll(w1, f.rows, now);
      var w' := Recover(w1, f.rows, now).0;
      forall id | id in w'.jobs
        ensures Recovered(w', id) && (w'.jobs[id].status == Receiving ==> w'.jobs[id].updatedAt == now)
      {
        if id in UnfinishedRows(w) {
          var i :| 0 <= i < |f.rows| && f.rows[i].id == id;
          assert RowDone(w1, w', f.rows[i], now);
        } else {
          assert w'.jobs[id] == w.jobs[id];
        }
      }
    }
  }

  // -------------------------------------------------------- a second startup

  predicate SameButTime(a: Job, b: Job) {
    a == b.(updatedAt := a.updatedAt)
  }

  ghost predicate SameTable(a: World, b: World) {
    a.jobs.Keys == b.jobs.Keys && forall id :: id in a.jobs ==> SameButTime(a.jobs[id], b.jobs[id])
  }

  /** What a successful startup leaves of a row, at one time: confirmed bytes are all there. */
  predicate Restarted(w: World, id: Uuid, at: nat)
    requires id in w.jobs
  {
    && Recovered(w, id)
    && (w.jobs[id].status == Receiving ==>
          w.jobs[id].updatedAt == at && (w.jobs[id].received > 0 ==> Settled(w, id)))
  }

  ghost predicate JustStarted(w: World, at: nat) {
    forall id :: id in w.jobs ==> Restarted(w, id, at)
  }

  function StagingOf(w: World, id: Uuid): FileKey
    requires id in w.jobs && PlaceRead(w.jobs[id].user, w.jobs[id].path, id).Some?
  {
    PlaceRead(w.jobs[id].user, w.jobs[id].path, id).value.staging
  }

  lemma StartupLeavesRestarted(w: World, f: StartupFaults, ttl: nat, now: nat)
    requires Selects(f.rows, UnfinishedRows(w)) && UpdatesWork(f.rows)
    ensures JustStarted(Startup(w, f, ttl, now).0, now)
  {
    StartupReconciles(w, f, ttl, now);
    RecoverSettlesAll(Cleanup(w, f.queryOk, f.spared, ttl, now), f.rows, now);
    var w' := Startup(w, f, ttl, now).0;
    forall id | id in w'.jobs ensures Restarted(w', id, now) {
      if id in UnfinishedRows(w) {
        var i :| 0 <= i < |f.rows| && f.rows[i].id == id;
        assert RowDone(Cleanup(w, f.queryOk, f.spared, ttl, now), w', f.rows[i], now);
      }
    }
  }

  /** A restarted row is recovered to itself exactly when its confirmed bytes are still there. */
  lemma RestartedRowRecovers(w: World, w1: World, id: Uuid, first: nat, f: RowFaults, now: nat)
    requires id in w.jobs && Restarted(w, id, first) && w.jobs[id].status == Receiving && f.update.Done?
    requires id in w1.jobs && w1.jobs[id] == w.jobs[id]
    requires forall k :: k in w1.files ==> k in w.files && w1.files[k] == w.files[k]
    ensures SameButTime(w.jobs[id], RecoverRow(w1, id, f, now).jobs[id]) <==>
            (w.jobs[id].received > 0 ==> StagingOf(w, id) in w1.files)
  {
  }

  /** A restarted row that is still to be recovered, with some of its world's files gone. */
  ghost predicate Waits(w: World, w1: World, id: Uuid, first: nat) {
    && id in w.jobs && Restarted(w, id, first) && w.jobs[id].status == Receiving
    && id in w1.jobs && w1.jobs[id] == w.jobs[id]
    && (forall f :: f in w1.files ==> f in w.files && w1.files[f] == w.files[f])
  }

  /** The row comes out as it was exactly when its confirmed bytes were still there. */
  predicate ComesOut(w: World, w1: World, id: Uuid, recovered: World)
    requires id in w.jobs && PlaceRead(w.jobs[id].user, w.jobs[id].path, id).Some?
  {
    && id in recovered.jobs
    && (SameButTime(w.jobs[id], recovered.jobs[id]) <==> (w.jobs[id].received > 0 ==> StagingOf(w, id) in w1.files))
  }

  lemma WaitsStill(w: World, w1: World, rows: seq<Fetched>, first: nat, now: nat, k: nat)
    requires FetchedUnfinished(w1, rows) && UpdatesWork(rows) && 0 < k < |rows| && Waits(w, w1, rows[k].id, first)
    ensures var w2 := RecoverRow(w1, rows[0].id, rows[0].faults, now);
            && Waits(w, w2, rows[k].id, first)
            && (forall recovered :: ComesOut(w, w2, rows[k].id, recovered) ==> ComesOut(w, w1, rows[k].id, recovered))
  {
    FirstRowApart(w1, rows, now);
    ReadStagingIsBound(w.jobs[rows[k].id].user, w.jobs[rows[k].id].path, rows[k].id);
  }

  lemma {:induction false} RecoverRowInOrder(w: World, w1: World, rows: seq<Fetched>, first: nat, now: nat, k: nat)
    requires FetchedUnfinished(w1, rows) && UpdatesWork(rows) && k < |rows| && Waits(w, w1, rows[k].id, first)
    ensures ComesOut(w, w1, rows[k].id, Recover(w1, rows, now).0)
    decreases rows
  {
    FirstRowApart(w1, rows, now);
    var w2 := RecoverRow(w1, rows[0].id, rows[0].faults, now);
    if k == 0 {
      FirstInOrder(w, w1, w2, rows, first, now);
    } else {
      assert rows[1..][k - 1] == rows[k];
      WaitsStill(w, w1, rows, first, now, k);
      RecoverRowInOrder(w, w2, rows[1..], first, now, k - 1);
      assert Recover(w1, rows, now).0 == Recover(w2, rows[1..], now).0;
    }
  }

  /** The first row of a pass leaves the other rows fetched, and their files as they are. */
  lemma FirstRowApart(w1: World, rows: seq<Fetched>, now: nat)
    requires rows != [] && FetchedUnfinished(w1, rows) && UpdatesWork(rows)
    ensures var w2 := RecoverRow(w1, rows[0].id, rows[0].faults, now);
            && FetchedUnfinished(w2, rows[1..]) && UpdatesWork(rows[1..]) && rows[0].id in w2.jobs
            && (forall i :: 0 < i < |rows| ==> rows[i].id in w1.jobs && w2.jobs[rows[i].id] == w1.jobs[rows[i].id])
            && (forall f :: f in w2.files ==> f in w1.files && w2.files[f] == w1.files[f])
            && (forall f :: f in w1.files && TransferOf(f) != Some(rows[0].id) ==> f in w2.files)
  {
    RecoverRowSettles(w1, rows[0].id, rows[0].faults, now);
    RecoverRowRemoves(w1, rows[0].id, rows[0].faults, now);
  }

  lemma FirstInOrder(w: World, w1: World, w2: World, rows: seq<Fetched>, first: nat, now: nat)
    requires rows != [] && FetchedUnfinished(w1, rows) && FetchedUnfinished(w2, rows[1..]) && UpdatesWork(rows)
    requires Waits(w, w1, rows[0].id, first)
    requires w2 == RecoverRow(w1, rows[0].id, rows[0].faults, now) && rows[0].id in w2.jobs
    ensures ComesOut(w, w1, rows[0].id, Recover(w1, rows, now).0)
  {
    assert forall i :: 0 <= i < |rows[1..]| ==> rows[1..][i] == rows[i + 1] && rows[i + 1].id != rows[0].id;
    UnlistedStays(w2, rows[1..], now, rows[0].id);
    RestartedRowRecovers(w, w1, rows[0].id, first, rows[0].faults, now);
  }

  lemma UnlistedStays(w: World, rows: seq<Fetched>, now: nat, id: Uuid)
    requires FetchedUnfinished(w, rows) && UpdatesWork(rows) && id in w.jobs
    requires forall i :: 0 <= i < |rows| ==> rows[i].id != id
    ensures id in Recover(w, rows, now).0.jobs && Recover(w, rows, now).0.jobs[id] == w.jobs[id]
  {
    RecoverSettlesAll(w, rows, now);
  }

  /** The cleanup of a later startup keeps the staging file of a row with confirmed bytes exactly when its
      session query works and the sessions have not expired, or it fails to remove the file. */
  lemma CleanupKeepsLive(w: World, f: StartupFaults, ttl: nat, first: nat, now: nat, id: Uuid)
    requires id in w.jobs && Restarted(w, id, first) && w.jobs[id].status == Receiving && w.jobs[id].received > 0
    ensures StagingOf(w, id) in Cleanup(w, f.queryOk, f.spared, ttl, now).files <==>
            (f.queryOk && now < first + ttl) || StagingOf(w, id) in f.spared
  {
    ReadStagingIsBound(w.jobs[id].user, w.jobs[id].path, id);
  }

  lemma RowAfterSecond(w: World, f: StartupFaults, ttl: nat, first: nat, now: nat, id: Uuid)
    requires JustStarted(w, first) && Selects(f.rows, UnfinishedRows(w)) && UpdatesWork(f.rows) && id in w.jobs
    ensures var w' := Startup(w, f, ttl, now).0;
            && id in w'.jobs
            && (SameButTime(w.jobs[id], w'.jobs[id]) <==>
                (w.jobs[id].status == Receiving && w.jobs[id].received > 0 ==>
                   (f.queryOk && now < first + ttl) || StagingOf(w, id) in f.spared))
  {
    var w1 := Cleanup(w, f.queryOk, f.spared, ttl, now);
    RecoverSettlesAll(w1, f.rows, now);
    if w.jobs[id].status == Receiving {
      assert id in UnfinishedRows(w);
      var i :| 0 <= i < |f.rows| && f.rows[i].id == id;
      RecoverRowInOrder(w, w1, f.rows, first, now, i);
      if w.jobs[id].received > 0 {
        CleanupKeepsLive(w, f, ttl, first, now, id);
      }
    } else {
      assert Restarted(w, id, first);
      assert id !in UnfinishedRows(w);
    }
  }

  /** A second startup leaves the job table as it is, apart from timestamps, exactly when it comes
      within the session lifetime with a working session query, or every row with confirmed bytes has a staging
      file that the cleanup could not remove. */
  lemma SecondStartup(w: World, f: StartupFaults, ttl: nat, first: nat, now: nat)
    requires JustStarted(w, first) && Selects(f.rows, UnfinishedRows(w)) && UpdatesWork(f.rows)
    ensures SameTable(w, Startup(w, f, ttl, now).0) <==>
            (f.queryOk && now < first + ttl)
            || (forall id :: id in w.jobs && w.jobs[id].status == Receiving && w.jobs[id].received > 0 ==>
                  StagingOf(w, id) in f.spared)
  {
    RecoverSettlesAll(Cleanup(w, f.queryOk, f.spared, ttl, now), f.rows, now);
    forall id | id in w.jobs
      ensures SameButTime(w.jobs[id], Startup(w, f, ttl, now).0.jobs[id]) <==>
              (w.jobs[id].status == Receiving && w.jobs[id].received > 0 ==>
                 (f.queryOk && now < first + ttl) || StagingOf(w, id) in f.spared)
    {
      RowAfterSecond(w, f, ttl, first, now, id);
    }
  }

  /** Both startups together, from any world and with any removal faults: as long as both succeed. */
  lemma StartupTwice(w: World, f: StartupFaults, again: StartupFaults, ttl: nat, first: nat, now: nat)
    requires Selects(f.rows, UnfinishedRows(w)) && UpdatesWork(f.rows)
    requires Selects(again.rows, UnfinishedRows(Startup(w, f, ttl, first).0)) && UpdatesWork(again.rows)
    requires now < first + ttl && again.queryOk
    ensures var w1 := Startup(w, f, ttl, first).0;
            SameTable(w1, Startup(w1, again, ttl, now).0)
  {
    StartupLeavesRestarted(w, f, ttl, first);
    SecondStartup(Startup(w, f, ttl, first).0, again, ttl, first, now);
  }

  // -------------------------------------------------------- marker-named user files

  /** What a cleanup deletes: every marker-named file it reaches whose tail is not the id of a live session. */
  lemma CleanupDeletesExactly(w: World, key: FileKey, queryOk: bool, spared: set<FileKey>, ttl: nat, now: nat)
    requires key in w.files
    ensures key !in Cleanup(w, queryOk, spared, ttl, now).files <==>
            && key !in spared && IsStagingName(FileName(key.path))
            && !(queryOk && exists id :: TransferOf(key) == Some(id) && id in w.jobs && w.jobs[id].updatedAt + ttl > now
                                         && (w.jobs[id].status == Receiving || w.jobs[id].status == Staging))
  {
  }

  /** A finished upload of a file whose own name carries the marker does not survive the next startup: its
      session is over, so nothing keeps the file. */
  lemma MarkedUploadIsDeleted(q: ChunkRequest, at: Place, now: nat, queryOk: bool, ttl: nat, later: nat)
    requires q.offset == 0 && |q.body| == q.total && q.contentLength.None? && at.target != at.staging
    requires IsStagingName(FileName(at.target.path))
    ensures var (w, r) := ChunkAt(EMPTY, q, at, NO_FAULTS, now);
            && r == Finished(q.total) && at.target in w.files && w.files[at.target] == q.body
            && q.id in w.jobs && w.jobs[q.id].status == Completed
            && at.target !in Cleanup(w, queryOk, {}, ttl, later).files
  {
    var w := ChunkAt(EMPTY, q, at, NO_FAULTS, now).0;
    FirstChunkDelivers(q, at, now);
    CleanupDeletesExactly(w, at.target, queryOk, {}, ttl, later);
  }

  lemma FirstChunkDelivers(q: ChunkRequest, at: Place, now: nat)
    requires q.offset == 0 && |q.body| == q.total && q.contentLength.None? && at.target != at.staging
    ensures var (w, r) := ChunkAt(EMPTY, q, at, NO_FAULTS, now);
            && r == Finished(q.total) && at.target in w.files && w.files[at.target] == q.body
            && w.jobs.Keys == {q.id} && w.jobs[q.id].status == Completed
  {
    assert [][..0] + q.body + [] == q.body;
  }
}
