/** The sync handlers of one account (server/src/handlers/sync.rs): the manifest scan and the delta.
    Scans run one at a time and files do not change while one runs. */
module SyncServer {
  import opened Prelude
  import opened Paths
  import opened FileTree
  import opened SyncModel
  import opened TreeEdits

  /** What goes wrong with one path during a scan: its metadata, its row (or its hash), or the listing of a folder. */
  datatype Fault = Fine | StatFails | RowFails | ListFails

  /** Why an edit was refused, or `Database` when the files changed and a statement afterwards failed. */
  datatype EditError = BadRequest | NotFound | Conflict | Io | Database

  datatype Manifest = Manifest(serverTime: nat, entries: View, tombstones: map<RelPath, nat>)

  /** The upsert of one fingerprint: a new row is stamped with the start of the walk, a changed one with
      the current time. */
  function Upsert(rows: map<RelPath, Row>, p: RelPath, entry: SyncEntry, started: nat, now: nat): Row {
    if p !in rows then Row(entry, started, Bound(started))
    else Row(entry, started, if rows[p].entry != entry then Current(now) else rows[p].updatedAt)
  }

  /** Where the walk stands: the paths seen so far have fresh rows and no tombstones, all others are as before. */
  ghost predicate Scanning(s: State, rows: map<RelPath, Row>, tombs: map<RelPath, nat>, out: View,
                           seen: set<RelPath>, started: nat, now: nat) {
    && s.now < started <= now
    && Collected(s, rows, seen, now)
    && tombs == s.tombs - seen
    && out.Keys == seen
    && (forall p :: p in seen ==> rows[p].lastSeen == started && out[p] == rows[p].entry)
  }

  lemma ScanningStarts(s: State, started: nat)
    requires s.now < started
    ensures Scanning(s, s.rows, s.tombs, map[], {}, started, started)
  {
    assert s.tombs - {} == s.tombs;
  }

  lemma RowTaken(s: State, rows: map<RelPath, Row>, seen: set<RelPath>, now: nat, p: RelPath, entry: SyncEntry,
                 started: nat, later: nat)
    requires Collected(s, rows, seen, now) && s.now < started <= now < later
    requires p in Visible(s.tree) && p !in seen && entry == ScanEntry(s.rows, s.tree, p)
    ensures Collected(s, rows[p := Upsert(rows, p, entry, started, later)], seen + {p}, later)
  {
    assert p in s.rows ==> rows[p] == s.rows[p];
    var rows' := rows[p := Upsert(rows, p, entry, started, later)];
    assert Refreshed(s.rows, p, entry, rows'[p], s.now, later);
    forall q | q in seen ensures Refreshed(s.rows, q, ScanEntry(s.rows, s.tree, q), rows'[q], s.now, later) {
      assert rows'[q] == rows[q];
    }
  }

  lemma EntryTaken(rows: map<RelPath, Row>, out: View, seen: set<RelPath>, p: RelPath, entry: SyncEntry, started: nat, later: nat)
    requires out.Keys == seen && p !in seen
    requires forall q :: q in seen ==> q in rows && rows[q].lastSeen == started && out[q] == rows[q].entry
    ensures var rows', out' := rows[p := Upsert(rows, p, entry, started, later)], out[p := entry];
            && out'.Keys == seen + {p}
            && forall q :: q in seen + {p} ==> rows'[q].lastSeen == started && out'[q] == rows'[q].entry
  {
  }

  lemma ScanningTakes(s: State, rows: map<RelPath, Row>, tombs: map<RelPath, nat>, out: View,
                      seen: set<RelPath>, started: nat, now: nat, p: RelPath, later: nat)
    requires Scanning(s, rows, tombs, out, seen, started, now) && now < later
    requires p in Visible(s.tree) && p !in seen
    ensures var entry := ScanEntry(s.rows, s.tree, p);
            Scanning(s, rows[p := Upsert(rows, p, entry, started, later)], tombs - {p}, out[p := entry],
                     seen + {p}, started, later)
  {
    var entry := ScanEntry(s.rows, s.tree, p);
    RowTaken(s, rows, seen, now, p, entry, started, later);
    assert s.tombs - seen - {p} == s.tombs - (seen + {p});
    EntryTaken(rows, out, seen, p, entry, started, later);
  }

  /** A scan that stops here has only begun its work. */
  lemma ScanningStops(s: State, rows: map<RelPath, Row>, tombs: map<RelPath, nat>, out: View,
                      seen: set<RelPath>, started: nat, now: nat, torn: set<RelPath>, later: nat)
    requires Scanning(s, rows, tombs, out, seen, started, now) && now <= later && torn <= Visible(s.tree)
    ensures PartlyScanned(s, State(s.tree, rows, tombs - torn, later), seen, torn, {})
  {
  }

  /** When everything visible was seen, the stale rows are exactly those of the paths that are gone. */
  lemma StaleAreGone(s: State, rows: map<RelPath, Row>, tombs: map<RelPath, nat>, out: View, started: nat, now: nat, begun: nat)
    requires Scanning(s, rows, tombs, out, Visible(s.tree), started, now) && s.now < begun <= started
    requires forall p :: p in s.rows ==> s.rows[p].lastSeen <= s.now
    ensures (set p | p in rows && rows[p].lastSeen < begun) == s.rows.Keys - Visible(s.tree)
  {
  }

  lemma BuriedPartly(s: State, rows: map<RelPath, Row>, out: View, started: nat, walked: nat,
                     tombs: map<RelPath, nat>, written: set<RelPath>, now: nat)
    requires Scanning(s, rows, s.tombs - Visible(s.tree), out, Visible(s.tree), started, walked) && walked <= now
    requires written <= s.rows.Keys - Visible(s.tree)
    requires Marked(s.tombs, tombs, Visible(s.tree), written, s.now, now)
    ensures PartlyScanned(s, State(s.tree, rows, tombs, now), Visible(s.tree), {}, written)
  {
    assert Visible(s.tree) + {} == Visible(s.tree);
  }

  lemma BuriedAll(s: State, rows: map<RelPath, Row>, out: View, started: nat, walked: nat,
                  tombs: map<RelPath, nat>, now: nat)
    requires Scanning(s, rows, s.tombs - Visible(s.tree), out, Visible(s.tree), started, walked) && walked <= now
    requires Marked(s.tombs, tombs, Visible(s.tree), s.rows.Keys - Visible(s.tree), s.now, now)
    ensures var s' := State(s.tree, rows - (s.rows.Keys - Visible(s.tree)), tombs, now);
            Scanned(s, s') && ViewOf(s') == out
  {
  }

  /** The walk and the rows together. */
  ghost predicate Underway(s: State, rows: map<RelPath, Row>, tombs: map<RelPath, nat>, out: View, started: nat, now: nat,
                           stack: seq<RelPath>, read: set<RelPath>, pending: set<RelPath>) {
    && Walking(s.tree, [], SYNCED, stack, read, pending)
    && Scanning(s, rows, tombs, out, Seen(s.tree, [], SYNCED, read, pending), started, now)
  }

  lemma UnderwayStarts(s: State, started: nat)
    requires s.now < started && [] in s.tree && s.tree[[]].Folder?
    ensures Underway(s, s.rows, s.tombs, map[], started, started, [[]], {}, {})
  {
    WalkStarts(s.tree, [], SYNCED);
    ScanningStarts(s, started);
  }

  lemma UnderwayPops(s: State, rows: map<RelPath, Row>, tombs: map<RelPath, nat>, out: View, started: nat, now: nat,
                     stack: seq<RelPath>, read: set<RelPath>)
    requires Underway(s, rows, tombs, out, started, now, stack, read, {}) && stack != []
    ensures var d := stack[|stack| - 1];
            && Underway(s, rows, tombs, out, started, now, stack[..|stack| - 1], read + {d}, Entries(s.tree, d))
            && |ToReadSet(s.tree, [], SYNCED) - (read + {d})| < |ToReadSet(s.tree, [], SYNCED) - read|
  {
    var d := stack[|stack| - 1];
    WalkPops(s.tree, [], SYNCED, stack, read);
    PopSeesNothing(s.tree, [], SYNCED, stack, read, d);
    WalkProgress(s.tree, [], SYNCED, read, d);
  }

  /** An entry the walk leaves out changes nothing. */
  lemma UnderwaySkips(s: State, rows: map<RelPath, Row>, tombs: map<RelPath, nat>, out: View, started: nat, now: nat,
                      stack: seq<RelPath>, read: set<RelPath>, pending: set<RelPath>, p: RelPath)
    requires Underway(s, rows, tombs, out, started, now, stack, read, pending) && p in pending
    requires !(SYNCED(p) && Real(s.tree[p]))
    ensures Underway(s, rows, tombs, out, started, now, stack, read, pending - {p})
  {
    var seen := Seen(s.tree, [], SYNCED, read, pending);
    WalkTakes(s.tree, [], SYNCED, stack, read, pending, p);
    assert seen + {} == seen;
  }

  lemma UnderwaySees(s: State, rows: map<RelPath, Row>, tombs: map<RelPath, nat>, out: View, started: nat, now: nat,
                     stack: seq<RelPath>, read: set<RelPath>, pending: set<RelPath>, p: RelPath, later: nat)
    requires Underway(s, rows, tombs, out, started, now, stack, read, pending) && p in pending && now < later
    requires SYNCED(p) && Real(s.tree[p])
    ensures p in Visible(s.tree)
    ensures var entry := ScanEntry(s.rows, s.tree, p);
            Underway(s, rows[p := Upsert(rows, p, entry, started, later)], tombs - {p}, out[p := entry], started, later,
                     if s.tree[p].Folder? then stack + [p] else stack, read, pending - {p})
  {
    WalkTakes(s.tree, [], SYNCED, stack, read, pending, p);
    ScanningTakes(s, rows, tombs, out, Seen(s.tree, [], SYNCED, read, pending), started, now, p, later);
  }

  lemma UnderwayStops(s: State, rows: map<RelPath, Row>, tombs: map<RelPath, nat>, out: View, started: nat, now: nat,
                      stack: seq<RelPath>, read: set<RelPath>, pending: set<RelPath>, torn: set<RelPath>, later: nat)
    requires Underway(s, rows, tombs, out, started, now, stack, read, pending) && now <= later && torn <= Visible(s.tree)
    ensures StoppedEarly(s, State(s.tree, rows, tombs - torn, later))
  {
    ScanningStops(s, rows, tombs, out, Seen(s.tree, [], SYNCED, read, pending), started, now, torn, later);
  }

  lemma UnderwayStopsHere(s: State, rows: map<RelPath, Row>, tombs: map<RelPath, nat>, out: View, started: nat, now: nat,
                          stack: seq<RelPath>, read: set<RelPath>, pending: set<RelPath>)
    requires Underway(s, rows, tombs, out, started, now, stack, read, pending)
    ensures StoppedEarly(s, State(s.tree, rows, tombs, now))
  {
    UnderwayStops(s, rows, tombs, out, started, now, stack, read, pending, {}, now);
    assert tombs - {} == tombs;
  }

  ghost predicate StoppedEarly(s: State, s': State) {
    exists seen, torn :: PartlyScanned(s, s', seen, torn, {})
  }

  lemma UnderwayEnds(s: State, rows: map<RelPath, Row>, tombs: map<RelPath, nat>, out: View, started: nat, now: nat,
                     read: set<RelPath>)
    requires WellFormed(s.tree) && Underway(s, rows, tombs, out, started, now, [], read, {})
    ensures Scanning(s, rows, tombs, out, Visible(s.tree), started, now)
  {
    WalkEnds(s.tree, [], SYNCED, read);
  }

  /** Cutting a manifest down to the changed paths gives the delta. */
  lemma CutDown(s: State, since: nat)
    ensures (map p | p in ViewOf(s) && p in ChangedPaths(s.rows, since) :: ViewOf(s)[p]) == DeltaOf(s, since).changed
  {
  }

  function ChangedPaths(rows: map<RelPath, Row>, since: nat): set<RelPath> {
    set p | p in rows && Later(rows[p].updatedAt, since)
  }

  class Account {
    var tree: Tree
    var rows: map<RelPath, Row>
    var tombs: map<RelPath, nat>
    var now: nat

    constructor (tree: Tree)
      ensures Snapshot() == State(tree, map[], map[], 0) && Valid()
    {
      this.tree := tree;
      rows, tombs, now := map[], map[], 0;
    }

    ghost function Snapshot(): State
      reads this
    {
      State(tree, rows, tombs, now)
    }

    ghost predicate Valid()
      reads this
    {
      forall p :: p in rows ==> rows[p].lastSeen <= now
    }

    /** `collect_sync_entries`: the walk that refreshes one row per entry. */
    method CollectEntries(cache: map<RelPath, Row>, faults: RelPath -> Fault, ghost s: State)
      returns (out: Option<View>, started: nat)
      requires WellFormed(tree) && [] in tree && tree[[]].Folder?
      requires s == State(tree, rows, tombs, s.now) && s.now <= now && cache == rows
      modifies `rows, `tombs, `now
      ensures out.Some? ==> old(now) < started && Scanning(s, rows, tombs, out.value, Visible(tree), started, now)
      ensures out.None? ==> StoppedEarly(s, Snapshot())
      ensures (forall p :: faults(p) == Fine) ==> out.Some?
    {
      now := now + 1;
      started := now;
      var listed: View := map[];
      var stack: seq<RelPath> := [[]];
      ghost var read: set<RelPath> := {};
      UnderwayStarts(s, started);
      while stack != []
        invariant Underway(s, rows, tombs, listed, started, now, stack, read, {})
        decreases |ToReadSet(tree, [], SYNCED) - read|
      {
        var dir := stack[|stack| - 1];
        UnderwayPops(s, rows, tombs, listed, started, now, stack, read);
        stack := stack[..|stack| - 1];
        read := read + {dir};
        if faults(dir) == ListFails {
          UnderwayStopsHere(s, rows, tombs, listed, started, now, stack, read, Entries(tree, dir));
          return None, started;
        }
        var ok;
        ok, stack, listed := CollectFolder(dir, cache, faults, started, stack, listed, s, read);
        if !ok {
          return None, started;
        }
      }
      UnderwayEnds(s, rows, tombs, listed, started, now, read);
      out := Some(listed);
    }

    method CollectFolder(dir: RelPath, cache: map<RelPath, Row>, faults: RelPath -> Fault, started: nat,
                         left: seq<RelPath>, before: View, ghost s: State, ghost read: set<RelPath>)
      returns (ok: bool, stack: seq<RelPath>, listed: View)
      requires s.tree == tree && s.rows == cache
      requires Underway(s, rows, tombs, before, started, now, left, read, Entries(tree, dir))
      modifies `rows, `tombs, `now
      ensures ok ==> Underway(s, rows, tombs, listed, started, now, stack, read, {})
      ensures !ok ==> StoppedEarly(s, Snapshot())
      ensures (forall p :: faults(p) == Fine) ==> ok
    {
      ok, stack, listed := true, left, before;
      var pending := Entries(tree, dir);
      while pending != {}
        invariant ok && pending <= Entries(tree, dir)
        invariant Underway(s, rows, tombs, listed, started, now, stack, read, pending)
        decreases pending
      {
        var entry :| entry in pending;
        ok, stack, listed := CollectOne(entry, cache, faults, started, stack, listed, s, read, pending);
        if !ok {
          return;
        }
        pending := pending - {entry};
      }
    }

    /** An entry the sync shows: its tombstone goes, its row is refreshed, a folder is pushed. */
    method TakeOne(entry: RelPath, cache: map<RelPath, Row>, rowFails: bool, started: nat,
                   left: seq<RelPath>, before: View, ghost s: State, ghost read: set<RelPath>, ghost pending: set<RelPath>)
      returns (ok: bool, stack: seq<RelPath>, listed: View)
      requires s.tree == tree && s.rows == cache && entry in tree && SYNCED(entry) && Real(tree[entry])
      requires Underway(s, rows, tombs, before, started, now, left, read, pending) && entry in pending
      modifies `rows, `tombs, `now
      ensures ok ==> Underway(s, rows, tombs, listed, started, now, stack, read, pending - {entry})
      ensures !ok ==> StoppedEarly(s, Snapshot())
      ensures ok <==> !rowFails
    {
      stack, listed := left, before;
      var moment := now + 1;
      UnderwaySees(s, rows, tombs, listed, started, now, stack, read, pending, entry, moment);
      if rowFails {
        UnderwayStops(s, rows, tombs, listed, started, now, stack, read, pending, {entry}, moment);
        tombs, now := tombs - {entry}, moment;
        return false, stack, listed;
      }
      var found := Describe(tree, cache, entry);
      ok, listed := true, listed[entry := found];
      stack := if tree[entry].Folder? then stack + [entry] else stack;
      tombs, rows, now := tombs - {entry}, rows[entry := Upsert(rows, entry, found, started, moment)], moment;
    }

    /** One directory entry: others are passed over. */
    method CollectOne(entry: RelPath, cache: map<RelPath, Row>, faults: RelPath -> Fault, started: nat,
                      left: seq<RelPath>, before: View, ghost s: State, ghost read: set<RelPath>, ghost pending: set<RelPath>)
      returns (ok: bool, stack: seq<RelPath>, listed: View)
      requires s.tree == tree && s.rows == cache && entry in tree
      requires Underway(s, rows, tombs, before, started, now, left, read, pending) && entry in pending
      modifies `rows, `tombs, `now
      ensures ok ==> Underway(s, rows, tombs, listed, started, now, stack, read, pending - {entry})
      ensures !ok ==> StoppedEarly(s, Snapshot())
      ensures faults(entry) == Fine ==> ok
    {
      stack, listed := left, before;
      if !SYNCED(entry) {
        UnderwaySkips(s, rows, tombs, listed, started, now, stack, read, pending, entry);
        return true, stack, listed;
      }
      if faults(entry) == StatFails {
        UnderwayStopsHere(s, rows, tombs, listed, started, now, stack, read, pending);
        return false, stack, listed;
      }
      if !Real(tree[entry]) {
        UnderwaySkips(s, rows, tombs, listed, started, now, stack, read, pending, entry);
        return true, stack, listed;
      }
      ok, stack, listed := TakeOne(entry, cache, faults(entry) == RowFails, started, left, before, s, read, pending);
    }

    /** Tombstones for the rows the walk did not refresh. */
    method Bury(stale: set<RelPath>, failsAt: Option<RelPath>, ghost s: State, ghost walked: set<RelPath>)
      returns (ok: bool, ghost written: set<RelPath>)
      requires s.now <= now && tombs == s.tombs - walked
      modifies `tombs, `now
      ensures now >= old(now) && written <= stale
      ensures Marked(s.tombs, tombs, walked, written, s.now, now)
      ensures ok ==> written == stale
      ensures failsAt.None? ==> ok
    {
      var rest := stale;
      written := {};
      while rest != {}
        invariant rest <= stale && written == stale - rest && now >= old(now)
        invariant Marked(s.tombs, tombs, walked, written, s.now, now)
        decreases rest
      {
        var p :| p in rest;
        if failsAt == Some(p) {
          return false, written;
        }
        now := now + 1;
        tombs := tombs[p := now];
        rest, written := rest - {p}, written + {p};
      }
      ok := true;
    }

    /** `sync_manifest` after the device was resolved. */
    method TakeManifest(faults: RelPath -> Fault, buryFailsAt: Option<RelPath>, deleteFails: bool)
      returns (r: Result<Manifest, ()>)
      requires Valid() && WellFormed(tree) && [] in tree && tree[[]].Folder?
      modifies `rows, `tombs, `now
      ensures Valid() && Next(old(Snapshot()), Snapshot())
      ensures r.Ok? ==> Scanned(old(Snapshot()), Snapshot()) && r.value == Manifest(now, ViewOf(Snapshot()), tombs)
      ensures (forall p :: faults(p) == Fine) && buryFailsAt.None? && !deleteFails ==> r.Ok?
    {
      ghost var s := Snapshot();
      now := now + 1;
      var begun := now;
      var out, started := CollectEntries(rows, faults, s);
      if out.None? {
        ghost var seen, torn :| PartlyScanned(s, Snapshot(), seen, torn, {});
        PartScanKeepsTimes(s, Snapshot(), seen, torn, {});
        return Err(());
      }
      ghost var walked, walkedRows := now, rows;
      StaleAreGone(s, rows, tombs, out.value, started, now, begun);
      var stale := set p | p in rows && rows[p].lastSeen < begun;
      var ok, written := Bury(stale, buryFailsAt, s, Visible(tree));
      if !ok || deleteFails {
        BuriedPartly(s, rows, out.value, started, walked, tombs, written, now);
        PartScanKeepsTimes(s, Snapshot(), Visible(tree), {}, written);
        return Err(());
      }
      BuriedAll(s, rows, out.value, started, walked, tombs, now);
      rows := rows - stale;
      r := Ok(Manifest(now, out.value, tombs));
    }

    /** `sync_delta`: a manifest, cut down to what is newer than the cursor. */
    method TakeDelta(since: nat, faults: RelPath -> Fault, buryFailsAt: Option<RelPath>, deleteFails: bool)
      returns (r: Result<(nat, Delta), ()>)
      requires Valid() && WellFormed(tree) && [] in tree && tree[[]].Folder?
      modifies `rows, `tombs, `now
      ensures Valid() && Next(old(Snapshot()), Snapshot())
      ensures r.Ok? ==> Scanned(old(Snapshot()), Snapshot()) && r.value == (now, DeltaOf(Snapshot(), since))
    {
      var full := TakeManifest(faults, buryFailsAt, deleteFails);
      if full.Err? {
        return Err(());
      }
      var changedPaths := ChangedPaths(rows, since);
      CutDown(Snapshot(), since);
      var entries := map p | p in full.value.entries && p in changedPaths :: full.value.entries[p];
      var tombstones := set p | p in tombs && Later(Current(tombs[p]), since);
      r := Ok((full.value.serverTime, Delta(entries, tombstones)));
    }

    /** The change of the files, and then that of the tombstones if its statement takes effect. */
    method Record(changed: Tree, edit: Edit, statement: Outcome) returns (r: Result<(), EditError>)
      requires Valid()
      modifies this
      ensures Valid() && tree == changed && now == old(now) + 1
      ensures Edited(old(Snapshot()), Snapshot(), if statement.TakesEffect() then edit else Untracked)
      ensures r == if statement.Done? then Ok(()) else Err(Database)
    {
      tree := changed;
      now := now + 1;
      if statement.TakesEffect() {
        tombs := tombs - Dropped(edit, tombs);
        if edit.Trashed? {
          tombs := tombs[edit.path := now];
        }
      }
      r := if statement.Done? then Ok(()) else Err(Database);
    }

    /** `delete_one_to_trash`: the entry leaves the tree, then gets a tombstone, unless the database fails in between. */
    method Trash(path: RelPath, renameOk: bool, tombstone: Outcome) returns (r: Result<(), EditError>)
      requires Valid() && WellFormed(tree) && path != []
      modifies this
      ensures Valid() && WellFormed(tree)
      ensures r.Err? && r.error != Database ==> Snapshot() == old(Snapshot())
      ensures r.Ok? || r.error == Database <==> path in old(tree) && Real(old(tree)[path]) && renameOk
      ensures r.Ok? || r.error == Database ==>
                && tree == Without(old(tree), path)
                && Edited(old(Snapshot()), Snapshot(), if tombstone.TakesEffect() then Trashed(path) else Untracked)
                && (r.Ok? <==> tombstone.Done?)
    {
      if path !in tree { return Err(NotFound); }
      if !Real(tree[path]) { return Err(BadRequest); }
      if !renameOk { return Err(Io); }
      WithoutStaysWellFormed(tree, path);
      r := Record(Without(tree, path), Trashed(path), tombstone);
    }

    /** The end of a finished upload: the file is renamed into place, then its tombstone goes with the commit. */
    method Place(path: RelPath, content: Bytes, commit: Outcome) returns (r: Result<(), EditError>)
      requires Valid() && WellFormed(tree) && path != []
      modifies this
      ensures Valid() && WellFormed(tree)
      ensures r.Err? && r.error != Database ==> Snapshot() == old(Snapshot())
      ensures r.Ok? || r.error == Database <==>
              CanMakeFolders(old(tree), Parent(path)) && (path in old(tree) ==> !old(tree)[path].Folder?)
      ensures r.Ok? || r.error == Database ==>
                && tree == WithFile(old(tree), path, content, now)
                && path in tree && tree[path] == File(content, Some(now))
                && Edited(old(Snapshot()), Snapshot(), if commit.TakesEffect() then Placed(path) else Untracked)
                && (r.Ok? <==> commit.Done?)
    {
      if !CanMakeFolders(tree, Parent(path)) { return Err(Io); }
      if path in tree && tree[path].Folder? { return Err(Io); }
      WithFileStaysWellFormed(tree, path, content, now + 1);
      var grown := WithFile(tree, path, content, now + 1);
      r := Record(grown, Placed(path), commit);
    }

    /** `restore_trash`, once the stored path was parsed: the entry goes back to its free place and loses its tombstone. */
    method Restore(path: RelPath, item: Tree, tombstone: Outcome) returns (r: Result<(), EditError>)
      requires Valid() && WellFormed(tree) && path != [] && WellFormed(item) && [] in item
      modifies this
      ensures Valid() && WellFormed(tree)
      ensures r.Err? && r.error != Database ==> Snapshot() == old(Snapshot())
      ensures r == Err(Conflict) <==> path in old(tree)
      ensures r.Ok? || r.error == Database ==>
                && tree == WithEntry(old(tree), path, item, now)
                && Edited(old(Snapshot()), Snapshot(), if tombstone.TakesEffect() then Placed(path) else Untracked)
                && (r.Ok? <==> tombstone.Done?)
    {
      if path in tree { return Err(Conflict); }
      if !CanMakeFolders(tree, Parent(path)) { return Err(Io); }
      WithEntryStaysWellFormed(tree, path, item, now + 1);
      var grown := WithEntry(tree, path, item, now + 1);
      r := Record(grown, Placed(path), tombstone);
    }

    /** `create_folder`: the folders are made at the parsed path, the tombstones are matched with the text as it came. */
    method CreateFolder(text: string, tombstones: Outcome) returns (r: Result<(), EditError>)
      requires Valid() && WellFormed(tree)
      modifies this
      ensures Valid() && WellFormed(tree)
      ensures r.Err? && r.error != Database ==> Snapshot() == old(Snapshot())
      ensures r.Ok? || r.error == Database <==>
              Parse(text).Ok? && Parse(text).value != [] && CanMakeFolders(old(tree), Parse(text).value)
      ensures r.Ok? || r.error == Database ==>
                && tree == WithFolders(old(tree), Parse(text).value, now)
                && Edited(old(Snapshot()), Snapshot(), if tombstones.TakesEffect() then FolderCreated(text) else Untracked)
                && (r.Ok? <==> tombstones.Done?)
    {
      var path := SafeRelativePath(text);
      if path.Err? || path.value == [] { return Err(BadRequest); }
      if !CanMakeFolders(tree, path.value) { return Err(Io); }
      WithFoldersStaysWellFormed(tree, path.value, now + 1);
      r := Record(WithFolders(tree, path.value, now + 1), FolderCreated(text), tombstones);
    }
  }

  /** The metadata and the hash of one entry; an unchanged file is not hashed again. */
  method Describe(tree: Tree, cache: map<RelPath, Row>, p: RelPath) returns (entry: SyncEntry)
    requires p in tree && Real(tree[p])
    ensures entry == ScanEntry(cache, tree, p)
  {
    match tree[p]
    case Folder(modified) =>
      entry := FolderEntry(modified);
    case File(content, modified) =>
      var hash := None;
      if p in cache && cache[p].entry.FileEntry? {
        var stored := cache[p].entry;
        if stored.size == |content| && stored.modified == modified {
          hash := Some(stored.sha);
        }
      }
      if hash.None? {
        hash := Some(Sha256(content));
      }
      entry := FileEntry(|content|, modified, hash.value);
  }

  lemma PartScanKeepsTimes(s: State, s': State, seen: set<RelPath>, torn: set<RelPath>, written: set<RelPath>)
    requires PartlyScanned(s, s', seen, torn, written) && forall p :: p in s.rows ==> s.rows[p].lastSeen <= s.now
    ensures Next(s, s') && forall p :: p in s'.rows ==> s'.rows[p].lastSeen <= s'.now
  {
  }
}
