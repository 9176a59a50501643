/** What the manifest and the delta promise to a client over whole runs. */
module SyncDelta {
  import opened Prelude
  import opened Paths
  import opened FileTree
  import opened SyncModel

  // ------------------------------------------------------------ bookkeeping of one scan

  /** After a scan the fingerprints are exactly the paths walked, the tombstones are the old ones and the
      vanished paths without the walked ones, and no path is both. */
  lemma ScanBookkeeping(s: State, s': State)
    requires Scanned(s, s')
    ensures ViewOf(s').Keys == Visible(s.tree)
    ensures s'.tombs.Keys == (s.tombs.Keys + (s.rows.Keys - Visible(s.tree))) - Visible(s.tree)
    ensures ViewOf(s').Keys !! s'.tombs.Keys
  {
  }

  // ------------------------------------------------------------ delta and full view

  /** What stays true about the view a client took at time `cursor`. */
  ghost predicate Tracks(view: View, cursor: nat, s: State) {
    && cursor <= s.now
    && (forall p :: p in s.rows && s.rows[p].updatedAt.time <= cursor ==> p in view && view[p] == s.rows[p].entry)
    && (forall p :: p in s.tombs && p in view ==> s.tombs[p] > cursor)
  }

  lemma ScanTracksItself(s: State, s': State)
    requires Scanned(s, s')
    ensures Tracks(ViewOf(s'), s'.now, s')
  {
  }

  lemma MarkedTracks(view: View, cursor: nat, s: State, s': State, dropped: set<RelPath>, written: set<RelPath>)
    requires Tracks(view, cursor, s) && Marked(s.tombs, s'.tombs, dropped, written, s.now, s'.now)
    ensures forall p :: p in s'.tombs && p in view ==> s'.tombs[p] > cursor
  {
  }

  lemma NextTracks(view: View, cursor: nat, s: State, s': State)
    requires Tracks(view, cursor, s) && Next(s, s')
    ensures Tracks(view, cursor, s')
  {
    if Scanned(s, s') {
      MarkedTracks(view, cursor, s, s', Visible(s.tree), s.rows.Keys - Visible(s.tree));
    } else if exists edit :: Edited(s, s', edit) {
      var edit :| Edited(s, s', edit);
      MarkedTracks(view, cursor, s, s', Dropped(edit, s.tombs), Written(edit));
    } else {
      var seen, torn, written :| PartlyScanned(s, s', seen, torn, written);
      MarkedTracks(view, cursor, s, s', seen + torn, written);
    }
  }

  lemma {:induction false} RunTracks(view: View, cursor: nat, states: seq<State>)
    requires states != [] && Run(states) && Tracks(view, cursor, states[0])
    ensures Tracks(view, cursor, states[|states| - 1])
    decreases |states|
  {
    if |states| > 1 {
      NextTracks(view, cursor, states[0], states[1]);
      RunTracks(view, cursor, states[1..]);
    }
  }

  /** The paths of an old view that the server knows nothing about any more. */
  function Forgotten(view: View, s: State): set<RelPath> {
    set p | p in view && p !in s.rows && p !in s.tombs
  }

  /** The scan knows that the path went and when: its tombstone is not from the cursor's day. */
  predicate RemovalArrives(cursor: nat, s: State, p: RelPath) {
    p in s.tombs ==> DayOf(s.tombs[p]) > DayOf(cursor)
  }

  /** The change of a row is told by its stamp: it is a bound value, or not from the cursor's day. */
  predicate ChangeArrives(cursor: nat, row: Row) {
    row.updatedAt.Current? ==> DayOf(row.updatedAt.time) > DayOf(cursor)
  }

  /** Nothing that matters to a client with this view was stamped by `CURRENT_TIMESTAMP` on the day of its cursor. */
  ghost predicate OnLaterDays(view: View, cursor: nat, s: State) {
    && (forall p :: p in view && p !in s.rows ==> RemovalArrives(cursor, s, p))
    && (forall p :: p in s.rows && !(p in view && view[p] == s.rows[p].entry) ==> ChangeArrives(cursor, s.rows[p]))
  }

  /** One scan away: the delta carries exactly what changed unless a forgotten path is gone or something was stamped on
      the cursor's day. */
  lemma DeltaAfterScan(view: View, cursor: nat, s: State, s': State)
    requires Tracks(view, cursor, s) && Scanned(s, s')
    ensures Patch(view, DeltaOf(s', cursor)) == ViewOf(s') <==>
            Forgotten(view, s) <= Visible(s.tree) && OnLaterDays(view, cursor, s')
  {
    NextTracks(view, cursor, s, s');
    forall p ensures OnePath(view, cursor, s, s', p) {
      PatchedPath(view, cursor, s, s', p);
    }
    PathsAddUp(view, cursor, s, s');
  }

  /** What the delta must get right about one path. */
  predicate Arrives(view: View, cursor: nat, s: State, s': State, p: RelPath) {
    && !(p in Forgotten(view, s) && p !in Visible(s.tree))
    && (p in view && p !in s'.rows ==> RemovalArrives(cursor, s', p))
    && (p in s'.rows && !(p in view && view[p] == s'.rows[p].entry) ==> ChangeArrives(cursor, s'.rows[p]))
  }

  lemma PathsAddUp(view: View, cursor: nat, s: State, s': State)
    requires forall p :: OnePath(view, cursor, s, s', p)
    ensures Patch(view, DeltaOf(s', cursor)) == ViewOf(s') <==>
            Forgotten(view, s) <= Visible(s.tree) && OnLaterDays(view, cursor, s')
  {
    var patched, full := Patch(view, DeltaOf(s', cursor)), ViewOf(s');
    if Forgotten(view, s) <= Visible(s.tree) && OnLaterDays(view, cursor, s') {
      forall p ensures (p in patched <==> p in full) && (p in patched ==> patched[p] == full[p]) {
        assert OnePath(view, cursor, s, s', p);
        assert Arrives(view, cursor, s, s', p);
      }
    }
    if patched == full {
      forall p ensures Arrives(view, cursor, s, s', p) {
        assert OnePath(view, cursor, s, s', p);
      }
      EveryPathArrives(view, cursor, s, s');
    }
  }

  lemma EveryPathArrives(view: View, cursor: nat, s: State, s': State)
    requires forall p :: Arrives(view, cursor, s, s', p)
    ensures Forgotten(view, s) <= Visible(s.tree) && OnLaterDays(view, cursor, s')
  {
    forall p | p in Forgotten(view, s) ensures p in Visible(s.tree) {
      assert Arrives(view, cursor, s, s', p);
    }
    forall p | p in view && p !in s'.rows ensures RemovalArrives(cursor, s', p) {
      assert Arrives(view, cursor, s, s', p);
    }
    forall p | p in s'.rows && !(p in view && view[p] == s'.rows[p].entry) ensures ChangeArrives(cursor, s'.rows[p]) {
      assert Arrives(view, cursor, s, s', p);
    }
  }

  /** One path of a patched view: it is as in the full view exactly when what happened to it arrives. */
  ghost predicate OnePath(view: View, cursor: nat, s: State, s': State, p: RelPath) {
    var patched, full := Patch(view, DeltaOf(s', cursor)), ViewOf(s');
    (p in patched <==> p in full) && (p in patched && p in full ==> patched[p] == full[p]) <==> Arrives(view, cursor, s, s', p)
  }

  lemma PatchedPath(view: View, cursor: nat, s: State, s': State, p: RelPath)
    requires Tracks(view, cursor, s) && Tracks(view, cursor, s') && Scanned(s, s')
    ensures OnePath(view, cursor, s, s', p)
  {
  }

  /** Delta equals full: over any run between two scans, whatever other devices did, a client that patches
      its old view with the delta has the new view exactly when every path the server has forgotten
      is still there to be seen, and nothing that changed for the client was stamped on the day of its cursor. */
  lemma DeltaEqualsFull(first: State, states: seq<State>, last: State)
    requires states != [] && Scanned(first, states[0]) && Run(states) && Scanned(states[|states| - 1], last)
    ensures var view := ViewOf(states[0]);
            Patch(view, DeltaOf(last, states[0].now)) == ViewOf(last) <==>
            && Forgotten(view, states[|states| - 1]) <= Visible(states[|states| - 1].tree)
            && OnLaterDays(view, states[0].now, last)
  {
    var view := ViewOf(states[0]);
    ScanTracksItself(first, states[0]);
    RunTracks(view, states[0].now, states);
    DeltaAfterScan(view, states[0].now, states[|states| - 1], last);
  }

  // ------------------------------------------------------------ runs that go on another day

  /** Every current timestamp that is newer than the cursor is from a later day. */
  ghost predicate NoneOnDay(cursor: nat, s: State) {
    && (forall p :: p in s.tombs && s.tombs[p] > cursor ==> DayOf(s.tombs[p]) > DayOf(cursor))
    && (forall p :: p in s.rows && s.rows[p].updatedAt.time > cursor ==> ChangeArrives(cursor, s.rows[p]))
  }

  lemma DaysGoOn(a: nat, b: nat)
    requires a <= b
    ensures DayOf(a) <= DayOf(b)
  {
    assert a / DAY <= b / DAY;
  }

  lemma LaterDayIsLater(a: nat, b: nat)
    requires DayOf(a) < DayOf(b)
    ensures a < b
  {
    if b <= a {
      DaysGoOn(b, a);
    }
  }

  lemma LaterIsAnotherDay(cursor: nat, midnight: nat, time: nat)
    requires DayOf(midnight) > DayOf(cursor) && time >= midnight
    ensures DayOf(time) > DayOf(cursor)
  {
    DaysGoOn(midnight, time);
  }

  lemma NextOnAnotherDay(cursor: nat, s: State, s': State)
    requires NoneOnDay(cursor, s) && DayOf(s.now) > DayOf(cursor) && Next(s, s')
    ensures NoneOnDay(cursor, s') && DayOf(s'.now) > DayOf(cursor)
  {
    LaterIsAnotherDay(cursor, s.now, s'.now);
    forall p | p in s'.tombs && s'.tombs[p] > cursor ensures DayOf(s'.tombs[p]) > DayOf(cursor) {
      if s'.tombs[p] > s.now {
        LaterIsAnotherDay(cursor, s.now, s'.tombs[p]);
      }
    }
    forall p | p in s'.rows && s'.rows[p].updatedAt.time > cursor ensures ChangeArrives(cursor, s'.rows[p]) {
      if s'.rows[p].updatedAt.time > s.now {
        LaterIsAnotherDay(cursor, s.now, s'.rows[p].updatedAt.time);
      }
    }
  }

  lemma {:induction false} RunOnAnotherDay(cursor: nat, states: seq<State>)
    requires states != [] && Run(states) && NoneOnDay(cursor, states[0]) && DayOf(states[0].now) > DayOf(cursor)
    ensures var last := states[|states| - 1]; NoneOnDay(cursor, last) && DayOf(last.now) > DayOf(cursor)
    decreases |states|
  {
    if |states| > 1 {
      NextOnAnotherDay(cursor, states[0], states[1]);
      RunOnAnotherDay(cursor, states[1..]);
    }
  }

  /** No stamp lies in the future. */
  ghost predicate StampsPast(s: State) {
    && (forall p :: p in s.tombs ==> s.tombs[p] <= s.now)
    && (forall p :: p in s.rows ==> s.rows[p].updatedAt.time <= s.now)
  }

  lemma NextKeepsPast(s: State, s': State)
    requires StampsPast(s) && Next(s, s')
    ensures StampsPast(s')
  {
  }

  lemma TrackedOnLaterDays(view: View, cursor: nat, s: State)
    requires Tracks(view, cursor, s) && NoneOnDay(cursor, s)
    ensures OnLaterDays(view, cursor, s)
  {
  }

  lemma {:induction false} RunTracksOnAnotherDay(view: View, cursor: nat, states: seq<State>)
    requires states != [] && Run(states) && Tracks(view, cursor, states[0])
    requires NoneOnDay(cursor, states[0]) && DayOf(states[0].now) > DayOf(cursor)
    ensures var last := states[|states| - 1]; Tracks(view, cursor, last) && NoneOnDay(cursor, last) && DayOf(last.now) > DayOf(cursor)
  {
    RunTracks(view, cursor, states);
    RunOnAnotherDay(cursor, states);
  }

  /** When nothing happens between a sync and midnight, everything the next delta is about is from a later day. */
  lemma RestOfDayIsQuiet(first: State, synced: State, states: seq<State>, last: State)
    requires StampsPast(first) && Scanned(first, synced)
    requires states != [] && states[0].rows == synced.rows && states[0].tombs == synced.tombs
    requires DayOf(states[0].now) > DayOf(synced.now) && Run(states) && Scanned(states[|states| - 1], last)
    ensures OnLaterDays(ViewOf(synced), synced.now, last)
  {
    var view, cursor := ViewOf(synced), synced.now;
    ScanTracksItself(first, synced);
    NextKeepsPast(first, synced);
    MidnightComes(view, synced, states[0]);
    RunTracksOnAnotherDay(view, cursor, states);
    NextTracks(view, cursor, states[|states| - 1], last);
    NextOnAnotherDay(cursor, states[|states| - 1], last);
    TrackedOnLaterDays(view, cursor, last);
  }

  lemma MidnightComes(view: View, synced: State, s: State)
    requires StampsPast(synced) && Tracks(view, synced.now, synced) && s.rows == synced.rows && s.tombs == synced.tombs
    requires DayOf(s.now) > DayOf(synced.now)
    ensures Tracks(view, synced.now, s) && NoneOnDay(synced.now, s)
  {
    LaterDayIsLater(synced.now, s.now);
  }

  // ------------------------------------------------------------ careful runs

  /** A step that loses no path: a path without fingerprint whose tombstone it drops, or that was visible
      without a tombstone, is visible afterwards. */
  ghost predicate Careful(s: State, s': State) {
    forall p :: Syncable(p) && p !in s'.rows && p !in s'.tombs && (p in s.tombs || p in Visible(s.tree))
                ==> p in Visible(s'.tree)
  }

  ghost predicate CarefulRun(states: seq<State>) {
    forall i, j :: 0 <= i < j < |states| && j == i + 1 ==> Careful(states[i], states[j])
  }

  lemma NothingForgotten(view: View, s: State, s': State)
    requires Next(s, s') && Careful(s, s') && (forall p :: p in view ==> Syncable(p))
    requires Forgotten(view, s) <= Visible(s.tree)
    ensures Forgotten(view, s') <= Visible(s'.tree)
  {
    forall p | p in Forgotten(view, s') ensures p in Visible(s'.tree) {
      if p in s.rows {
        RowsAreKept(s, s', p);
      }
    }
  }

  /** A fingerprint only disappears into a tombstone. */
  lemma RowsAreKept(s: State, s': State, p: RelPath)
    requires Next(s, s') && p in s.rows
    ensures p in s'.rows || p in s'.tombs
  {
  }

  lemma {:induction false} CarefulRunForgetsNothing(view: View, states: seq<State>)
    requires states != [] && Run(states) && CarefulRun(states) && (forall p :: p in view ==> Syncable(p))
    requires Forgotten(view, states[0]) <= Visible(states[0].tree)
    ensures Forgotten(view, states[|states| - 1]) <= Visible(states[|states| - 1].tree)
    decreases |states|
  {
    if |states| > 1 {
      NothingForgotten(view, states[0], states[1]);
      CarefulRunForgetsNothing(view, states[1..]);
    }
  }

  /** In careful runs the delta brings the client to the full view exactly when nothing was stamped on the cursor's day. */
  lemma DeltaInCarefulRuns(first: State, states: seq<State>, last: State)
    requires states != [] && Scanned(first, states[0]) && Run(states) && CarefulRun(states)
    requires Scanned(states[|states| - 1], last)
    ensures Patch(ViewOf(states[0]), DeltaOf(last, states[0].now)) == ViewOf(last) <==>
            OnLaterDays(ViewOf(states[0]), states[0].now, last)
  {
    var view := ViewOf(states[0]);
    forall p | p in view ensures Syncable(p) {
      assert p in Visible(first.tree);
    }
    CarefulRunForgetsNothing(view, states);
    DeltaEqualsFull(first, states, last);
  }

  /** Scans, whole or broken off, are always careful. */
  lemma ScansAreCareful(s: State, s': State, seen: set<RelPath>, torn: set<RelPath>, written: set<RelPath>)
    requires Scanned(s, s') || PartlyScanned(s, s', seen, torn, written)
    ensures Careful(s, s')
  {
  }

  /** Uploads and restores are careful: they only add files, among them the path whose tombstone they drop. */
  lemma PlacingIsCareful(s: State, s': State, path: RelPath)
    requires Edited(s, s', Placed(path)) && Visible(s.tree) <= Visible(s'.tree)
    requires Syncable(path) ==> path in Visible(s'.tree)
    ensures Careful(s, s')
  {
  }

  /** Creating a folder is careful exactly when every fingerprint-less path whose tombstone goes away can be seen afterwards. */
  lemma FolderCreationCareful(s: State, s': State, text: string)
    requires Edited(s, s', FolderCreated(text)) && Visible(s.tree) <= Visible(s'.tree)
    ensures Careful(s, s') <==>
            forall p :: p in Dropped(FolderCreated(text), s.tombs) && p !in s.rows && Syncable(p) ==> p in Visible(s'.tree)
  {
  }

  /** Moving a file away, or trashing a folder, is careful when every visible path that goes has a
      fingerprint or a tombstone. */
  lemma RemovalCareful(s: State, s': State, edit: Edit)
    requires Edited(s, s', edit) && (edit.Untracked? || edit.Trashed?)
    ensures Careful(s, s') <==>
            forall p :: p in Visible(s.tree) - Visible(s'.tree) ==> p in s.rows || p in s'.tombs
  {
  }

  // ------------------------------------------------------------ a client that follows by deltas

  /** A moment of a run that follows a completed scan. */
  ghost predicate EndsScan(states: seq<State>, k: nat) {
    0 < k < |states| && Scanned(states[k - 1], states[k])
  }

  /** The moments of a run at which one client synced. */
  ghost predicate SyncedAt(states: seq<State>, syncs: seq<nat>) {
    && (forall i :: 0 <= i < |syncs| ==> EndsScan(states, syncs[i]))
    && (forall i, j :: 0 <= i < j < |syncs| ==> syncs[i] < syncs[j])
  }

  /** The client starts from one full manifest and then only asks for deltas. */
  ghost function ClientView(states: seq<State>, syncs: seq<nat>): View
    requires syncs != [] && forall i :: 0 <= i < |syncs| ==> syncs[i] < |states|
    decreases |syncs|
  {
    var n := |syncs| - 1;
    if n == 0 then ViewOf(states[syncs[0]])
    else Patch(ClientView(states, syncs[..n]), DeltaOf(states[syncs[n]], states[syncs[n - 1]].now))
  }

  /** Each delta takes the view of one sync to that of the next. */
  ghost predicate DeltaStep(states: seq<State>, from: nat, to: nat)
    requires from < |states| && to < |states|
  {
    Patch(ViewOf(states[from]), DeltaOf(states[to], states[from].now)) == ViewOf(states[to])
  }

  lemma {:induction false} StepsAddUp(states: seq<State>, syncs: seq<nat>)
    requires syncs != [] && forall i :: 0 <= i < |syncs| ==> syncs[i] < |states|
    requires forall i, j :: 0 <= i < j < |syncs| && j == i + 1 ==> DeltaStep(states, syncs[i], syncs[j])
    ensures ClientView(states, syncs) == ViewOf(states[syncs[|syncs| - 1]])
    decreases |syncs|
  {
    var n := |syncs| - 1;
    if n > 0 {
      var before := syncs[..n];
      forall i, j | 0 <= i < j < |before| && j == i + 1 ensures DeltaStep(states, before[i], before[j]) {
        assert before[i] == syncs[i] && before[j] == syncs[j];
      }
      StepsAddUp(states, before);
      assert before[|before| - 1] == syncs[n - 1];
      assert DeltaStep(states, syncs[n - 1], syncs[n]);
    }
  }

  /** From each sync to the next nothing that changed for the client was stamped on the day of the earlier one. */
  ghost predicate SyncsOnLaterDays(states: seq<State>, syncs: seq<nat>)
    requires forall i :: 0 <= i < |syncs| ==> syncs[i] < |states|
  {
    forall i, j :: 0 <= i < j < |syncs| && j == i + 1 ==>
      OnLaterDays(ViewOf(states[syncs[i]]), states[syncs[i]].now, states[syncs[j]])
  }

  /** In careful runs a client that only ever asks for deltas always has the server's full view, as long as
      nothing is stamped on the days of its cursors. */
  lemma ClientKeepsUp(states: seq<State>, syncs: seq<nat>)
    requires Run(states) && CarefulRun(states) && SyncedAt(states, syncs) && syncs != [] && SyncsOnLaterDays(states, syncs)
    ensures ClientView(states, syncs) == ViewOf(states[syncs[|syncs| - 1]])
  {
    forall i, j | 0 <= i < j < |syncs| && j == i + 1 ensures DeltaStep(states, syncs[i], syncs[j]) {
      OneSyncLater(states, syncs[i], syncs[j]);
    }
    StepsAddUp(states, syncs);
  }

  lemma OneSyncLater(states: seq<State>, from: nat, to: nat)
    requires Run(states) && CarefulRun(states) && from < to && EndsScan(states, from) && EndsScan(states, to)
    requires OnLaterDays(ViewOf(states[from]), states[from].now, states[to])
    ensures DeltaStep(states, from, to)
  {
    var between := states[from..to];
    PartOfRun(states, from, to);
    assert between[0] == states[from] && between[|between| - 1] == states[to - 1];
    DeltaInCarefulRuns(states[from - 1], between, states[to]);
  }

  lemma PartOfRun(states: seq<State>, from: nat, to: nat)
    requires Run(states) && CarefulRun(states) && from < to < |states|
    ensures Run(states[from..to]) && CarefulRun(states[from..to])
  {
  }
}
