/** The periodic sweep of abandoned upload sessions (server/src/handlers/upload.rs). */
module UploadSweep {
  import opened Prelude
  import opened Paths
  import opened StagingNames
  import opened UploadModel
  import opened UploadCompletion
  import opened UploadStartup

  /** What the sweep owes an expired row: it is failed, and its staging file is gone unless the removal failed. */
  ghost predicate RowExpired(w: World, w': World, r: Fetched, now: nat)
    requires r.id in w.jobs
  {
    && r.id in w'.jobs
    && w'.jobs[r.id] == w.jobs[r.id].(status := Failed, lastError := Expired, updatedAt := now)
    && (r.faults.removeOk && PlaceRead(w.jobs[r.id].user, w.jobs[r.id].path, r.id).Some? ==> StagingOf(w, r.id) !in w'.files)
  }

  lemma ExpireRowRemoves(w: World, id: Uuid, f: RowFaults, now: nat)
    ensures OnlyRemoves(w, ExpireRow(w, id, f, now), [Fetched(id, f)])
    ensures forall i :: i in w.jobs && i != id ==> i in ExpireRow(w, id, f, now).jobs && ExpireRow(w, id, f, now).jobs[i] == w.jobs[i]
    ensures ExpireRow(w, id, f, now).jobs.Keys == w.jobs.Keys
  {
    ExpireFrame(w, id, f.removeOk, now);
    assert [Fetched(id, f)][0].id == id;
    if id in w.jobs {
      ReadStagingIsBound(w.jobs[id].user, w.jobs[id].path, id);
    }
  }

  lemma ExpireRowExpires(w: World, id: Uuid, f: RowFaults, now: nat)
    requires id in w.jobs && f.update.Done?
    ensures RowExpired(w, ExpireRow(w, id, f, now), Fetched(id, f), now)
  {
  }

  ghost predicate AllExpired(w: World, w': World, rows: seq<Fetched>, now: nat) {
    forall i :: 0 <= i < |rows| ==> rows[i].id in w.jobs && RowExpired(w, w', rows[i], now)
  }

  lemma {:induction false} ExpireAll(w: World, rows: seq<Fetched>, now: nat)
    requires forall i :: 0 <= i < |rows| ==> rows[i].id in w.jobs
    requires forall i, j :: 0 <= i < j < |rows| ==> rows[i].id != rows[j].id
    ensures var (w', ok) := Expire(w, rows, now);
            && (ok <==> UpdatesWork(rows)) && w'.jobs.Keys == w.jobs.Keys && OnlyRemoves(w, w', rows)
            && (forall id :: id in w.jobs && (forall i :: 0 <= i < |rows| ==> rows[i].id != id) ==> w'.jobs[id] == w.jobs[id])
            && (ok ==> AllExpired(w, w', rows, now))
    decreases rows
  {
    if rows != [] {
      var w1, rest := ExpireRow(w, rows[0].id, rows[0].faults, now), rows[1..];
      ExpireRowRemoves(w, rows[0].id, rows[0].faults, now);
      MoreRows(w, w1, [rows[0]], rows);
      assert rows == [rows[0]] + rest;
      if rows[0].faults.update.Done? {
        ExpireAll(w1, rest, now);
        var w' := Expire(w1, rest, now).0;
        MoreRows(w1, w', rest, rows);
        Unlisted(w, w1, w', rows, now);
        ExpireRowExpires(w, rows[0].id, rows[0].faults, now);
        if UpdatesWork(rows) {
          ExpiredStays(w, w1, w', rows, now);
        }
      }
    }
  }

  /** A row that the pass never fetches is left alone by its first step and by the rest. */
  lemma Unlisted(w: World, w1: World, w': World, rows: seq<Fetched>, now: nat)
    requires rows != [] && w1 == ExpireRow(w, rows[0].id, rows[0].faults, now) && w'.jobs.Keys == w1.jobs.Keys
    requires forall id :: id in w1.jobs && (forall i :: 0 <= i < |rows[1..]| ==> rows[1..][i].id != id) ==> w'.jobs[id] == w1.jobs[id]
    ensures forall id :: id in w.jobs && (forall i :: 0 <= i < |rows| ==> rows[i].id != id) ==> id in w'.jobs && w'.jobs[id] == w.jobs[id]
  {
    ExpireRowRemoves(w, rows[0].id, rows[0].faults, now);
    assert forall i :: 0 <= i < |rows[1..]| ==> rows[1..][i] == rows[i + 1];
  }

  lemma ExpiredStays(w: World, w1: World, w': World, rows: seq<Fetched>, now: nat)
    requires rows != [] && w1 == ExpireRow(w, rows[0].id, rows[0].faults, now)
    requires forall i, j :: 0 <= i < j < |rows| ==> rows[i].id != rows[j].id
    requires forall i :: 0 <= i < |rows| ==> rows[i].id in w.jobs
    requires RowExpired(w, w1, rows[0], now) && AllExpired(w1, w', rows[1..], now)
    requires w'.jobs.Keys == w1.jobs.Keys && (forall k :: k in w'.files ==> k in w1.files)
    requires forall id :: id in w1.jobs && (forall i :: 0 <= i < |rows[1..]| ==> rows[1..][i].id != id) ==> w'.jobs[id] == w1.jobs[id]
    ensures AllExpired(w, w', rows, now)
  {
    ExpireRowRemoves(w, rows[0].id, rows[0].faults, now);
    assert forall i :: 0 <= i < |rows[1..]| ==> rows[1..][i] == rows[i + 1] && rows[i + 1].id != rows[0].id;
    forall i | 0 <= i < |rows| ensures RowExpired(w, w', rows[i], now) {
      if i > 0 {
        assert rows[i] == rows[1..][i - 1];
        assert w1.jobs[rows[i].id] == w.jobs[rows[i].id];
      }
    }
  }

  /** What a sweep owes one row: past the lifetime an unfinished one fails and a finished one goes, and any other stays. */
  predicate Swept(w: World, w': World, done: bool, ttl: nat, now: nat, id: Uuid)
    requires id in w.jobs
  {
    var job := w.jobs[id];
    var unfinished := job.status == Receiving || job.status == Staging;
    if unfinished && job.updatedAt + ttl <= now then
      done && ttl > 0 ==> id in w'.jobs && w'.jobs[id] == job.(status := Failed, lastError := Expired, updatedAt := now)
    else
      && (done ==> (id in w'.jobs <==> unfinished || job.updatedAt + ttl > now))
      && (id in w'.jobs ==> w'.jobs[id] == job)
  }

  lemma RowSwept(w: World, rows: seq<Fetched>, prune: Outcome, ttl: nat, now: nat, id: Uuid)
    requires Selects(rows, ExpiredRows(w, ttl, now)) && id in w.jobs
    ensures var (w', expired) := Sweep(w, rows, prune, ttl, now); Swept(w, w', expired.Some?, ttl, now, id)
  {
    ExpireAll(w, rows, now);
    var (w1, ok) := Expire(w, rows, now);
    if id in ExpiredRows(w, ttl, now) {
      var i :| 0 <= i < |rows| && rows[i].id == id;
      assert ok ==> RowExpired(w, w1, rows[i], now);
    } else {
      assert forall i :: 0 <= i < |rows| ==> rows[i].id != id;
    }
  }

  /** What a sweep does to every row, when it succeeds: rows past the lifetime that are unfinished become failed,
      finished ones go, all others stay; and only staging files of expired rows are removed. */
  lemma SweepExpires(w: World, rows: seq<Fetched>, prune: Outcome, ttl: nat, now: nat)
    requires Selects(rows, ExpiredRows(w, ttl, now))
    ensures var (w', expired) := Sweep(w, rows, prune, ttl, now);
            && (expired.Some? <==> UpdatesWork(rows) && prune.Done?)
            && (expired.Some? ==> expired.value == |rows|) && (expired.Some? && ttl > 0 ==> AllExpired(w, w', rows, now))
            && OnlyRemoves(w, w', rows)
            && (forall id :: id in w.jobs ==> Swept(w, w', expired.Some?, ttl, now, id))
  {
    ExpireAll(w, rows, now);
    forall id | id in w.jobs ensures Swept(w, Sweep(w, rows, prune, ttl, now).0, Sweep(w, rows, prune, ttl, now).1.Some?, ttl, now, id) {
      RowSwept(w, rows, prune, ttl, now, id);
    }
  }
}
