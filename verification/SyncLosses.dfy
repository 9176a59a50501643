/** Runs in which a delta does not bring a client to the full view: a deletion is lost when its tombstone
    is dropped and the path is gone by the next scan. */
module SyncLosses {
  import opened Prelude
  import opened Paths
  import opened FileTree
  import opened SyncModel
  import opened SyncDelta
  import opened SyncEdits
  import opened TreeEdits
  import opened CopyTree
  import opened Transfers

  /** One scan in which every step takes place at the same tick. */
  function Rescan(s: State): State {
    var shown := Visible(s.tree);
    State(s.tree, map p | p in shown :: RescanRow(s, p),
          map p | p in s.tombs.Keys + s.rows.Keys - shown :: if p in s.rows then s.now + 1 else s.tombs[p],
          s.now + 1)
  }

  function RescanRow(s: State, p: RelPath): Row
    requires p in Visible(s.tree)
  {
    var entry := ScanEntry(s.rows, s.tree, p);
    Row(entry, s.now + 1,
        if p !in s.rows then Bound(s.now + 1) else if s.rows[p].entry == entry then s.rows[p].updatedAt else Current(s.now + 1))
  }

  lemma SomeScan(s: State) returns (s': State)
    ensures Scanned(s, s') && s'.now == s.now + 1
  {
    s' := Rescan(s);
  }

  function Edit(s: State, tree: Tree, edit: SyncModel.Edit): State {
    State(tree, s.rows,
          map p | p in (s.tombs.Keys - Dropped(edit, s.tombs)) + Written(edit) :: if p in Written(edit) then s.now + 1 else s.tombs[p],
          s.now + 1)
  }

  lemma SomeEdit(s: State, tree: Tree, edit: SyncModel.Edit) returns (s': State)
    ensures Edited(s, s', edit) && s'.tree == tree && s'.now == s.now + 1
  {
    s' := Edit(s, tree, edit);
  }

  /** A deletion that was seen by a scan and whose tombstone was dropped afterwards is lost. */
  lemma DroppedTombstoneIsLost(first: State, states: seq<State>, last: State, p: RelPath)
    requires states != [] && Scanned(first, states[0]) && Run(states) && Scanned(states[|states| - 1], last)
    requires var s := states[|states| - 1]; p !in s.rows && p !in s.tombs && p !in Visible(s.tree)
    requires p in ViewOf(states[0])
    ensures p !in ViewOf(last) && p in Patch(ViewOf(states[0]), DeltaOf(last, states[0].now))
  {
  }

  const TOP: Tree := map[[] := Folder(None)]
  const FULL: Tree := TOP[["d"] := Folder(None)][["d", "x"] := File([], None)]

  lemma FileShows()
    ensures ["d", "x"] in Visible(FULL)
    ensures ["d", "x"] !in Visible(Without(FULL, ["d"]))
    ensures ["d", "x"] !in Visible(WithFolders(Without(FULL, ["d"]), ["d"], 0))
  {
    var p := ["d", "x"];
    assert p[..1] == ["d"] && p[..2] == p;
    assert SYNCED(["d"]) && SYNCED(p);
    PrefixOf(["d"], p);
  }

  /** Trash a folder, let another device scan, create the folder again: `create_folder` drops the tombstones
      of everything that was in it, and the first device keeps the deleted file for ever. */
  lemma FolderCreationLosesDeletions() returns (first: State, s0: State, s1: State, s2: State, s3: State, last: State)
    ensures Scanned(first, s0) && Run([s0, s1, s2, s3]) && Scanned(s3, last)
    ensures Edited(s0, s1, Trashed(["d"])) && s1.tree == Without(s0.tree, ["d"])
    ensures Scanned(s1, s2)
    ensures Edited(s2, s3, FolderCreated("d")) && s3.tree == WithFolders(s2.tree, ["d"], 0)
    ensures ["d", "x"] in Patch(ViewOf(s0), DeltaOf(last, s0.now)) && ["d", "x"] !in ViewOf(last)
  {
    first := State(FULL, map[], map[], 0);
    s0 := SomeScan(first);
    s1 := SomeEdit(s0, Without(FULL, ["d"]), Trashed(["d"]));
    s2 := SomeScan(s1);
    s3 := SomeEdit(s2, WithFolders(s1.tree, ["d"], 0), FolderCreated("d"));
    last := SomeScan(s3);
    FileShows();
    FolderDrops(s2.tombs);
    LostAfterCreation(first, s0, s1, s2, s3, last, Trashed(["d"]), FolderCreated("d"), ["d", "x"]);
  }

  lemma FolderDrops(tombs: map<RelPath, nat>)
    ensures ["d", "x"] in tombs ==> ["d", "x"] in Dropped(FolderCreated("d"), tombs)
  {
    assert ["d", "x"][..1] == ["d"] && Display(["d"]) == "d";
    if ["d", "x"] in tombs {
      CreationDropsBelow(["d"], ["d", "x"], tombs);
    }
  }

  lemma LostAfterCreation(first: State, s0: State, s1: State, s2: State, s3: State, last: State,
                          removal: SyncModel.Edit, creation: SyncModel.Edit, p: RelPath)
    requires Scanned(first, s0) && Edited(s0, s1, removal) && Scanned(s1, s2) && Edited(s2, s3, creation) && !creation.Trashed?
    requires Scanned(s3, last) && p in Visible(first.tree) && p !in Visible(s1.tree) && p !in Visible(s3.tree)
    requires p in s2.tombs ==> p in Dropped(creation, s2.tombs)
    ensures Run([s0, s1, s2, s3])
    ensures p in Patch(ViewOf(s0), DeltaOf(last, s0.now)) && p !in ViewOf(last)
  {
    FourStateRun(s0, s1, s2, s3);
    NothingLeft(s1, s2, s3, creation, p);
    DroppedTombstoneIsLost(first, [s0, s1, s2, s3], last, p);
  }

  lemma NothingLeft(s1: State, s2: State, s3: State, creation: SyncModel.Edit, p: RelPath)
    requires Scanned(s1, s2) && Edited(s2, s3, creation) && !creation.Trashed? && p !in Visible(s1.tree)
    requires p in s2.tombs ==> p in Dropped(creation, s2.tombs)
    ensures p !in s3.rows && p !in s3.tombs
  {
  }

  lemma FourStateRun(a: State, b: State, c: State, d: State)
    requires Next(a, b) && Next(b, c) && Next(c, d)
    ensures Run([a, b, c, d])
  {
  }

  /** Trash a file, let another device scan, upload the file again and move it away before the next scan: no folder creation
      is needed, and every tree is what the handlers make of the one before. */
  lemma MovedUploadLosesDeletion(tree: Tree, p: RelPath, content: Bytes, dst: RelPath, now: nat)
    returns (first: State, s0: State, s1: State, s2: State, s3: State, s4: State, last: State)
    requires p != [] && p in Visible(tree) && Apart(p, dst) && Vacant(WithFile(Without(tree, p), p, content, now), dst)
    ensures first.tree == tree && Scanned(first, s0) && Run([s0, s1, s2, s3, s4]) && Scanned(s4, last)
    ensures Edited(s0, s1, Trashed(p)) && s1.tree == Without(s0.tree, p)
    ensures Scanned(s1, s2)
    ensures Edited(s2, s3, Placed(p)) && s3.tree == WithFile(s2.tree, p, content, now)
    ensures Edited(s3, s4, Untracked) && s4.tree == Moved(s3.tree, p, dst)
    ensures p in Patch(ViewOf(s0), DeltaOf(last, s0.now)) && p !in ViewOf(last)
  {
    var gone := Without(tree, p);
    var back := WithFile(gone, p, content, now);
    GoneFromTree(tree, p);
    MovedAway(back, p, dst);
    first, s0, s1, s2, s3, s4, last := LostThroughTrees(tree, gone, back, Moved(back, p, dst), p);
  }

  /** The run through four trees, of which the first holds `p` and the second and the last do not. */
  lemma LostThroughTrees(tree: Tree, gone: Tree, back: Tree, moved: Tree, p: RelPath)
    returns (first: State, s0: State, s1: State, s2: State, s3: State, s4: State, last: State)
    requires p in Visible(tree) && p !in Visible(gone) && p !in Visible(moved)
    ensures first.tree == s0.tree == tree && Scanned(first, s0) && Run([s0, s1, s2, s3, s4]) && Scanned(s4, last)
    ensures Edited(s0, s1, Trashed(p)) && s1.tree == gone
    ensures Scanned(s1, s2) && s2.tree == gone
    ensures Edited(s2, s3, Placed(p)) && s3.tree == back
    ensures Edited(s3, s4, Untracked) && s4.tree == moved
    ensures p in Patch(ViewOf(s0), DeltaOf(last, s0.now)) && p !in ViewOf(last)
  {
    first := State(tree, map[], map[], 0);
    s0 := SomeScan(first);
    s1 := SomeEdit(s0, gone, Trashed(p));
    s2 := SomeScan(s1);
    s3 := SomeEdit(s2, back, Placed(p));
    s4 := SomeEdit(s3, moved, Untracked);
    last := SomeScan(s4);
    LostAfterMove(first, s0, s1, s2, s3, s4, last, Trashed(p), p);
  }

  lemma GoneFromTree(tree: Tree, p: RelPath)
    ensures p !in Visible(Without(tree, p))
  {
    assert p[..|p|] == p;
  }

  lemma MovedAway(tree: Tree, p: RelPath, dst: RelPath)
    requires Apart(p, dst) && Vacant(tree, dst)
    ensures p !in Visible(Moved(tree, p, dst))
  {
    assert p[..|p|] == p;
    MovedLookup(tree, p, dst, p);
  }

  lemma LostAfterMove(first: State, s0: State, s1: State, s2: State, s3: State, s4: State, last: State,
                      removal: SyncModel.Edit, p: RelPath)
    requires Scanned(first, s0) && Edited(s0, s1, removal) && Scanned(s1, s2) && Edited(s2, s3, Placed(p))
    requires Edited(s3, s4, Untracked) && Scanned(s4, last)
    requires p in Visible(first.tree) && p !in Visible(s1.tree) && p !in Visible(s4.tree)
    ensures Run([s0, s1, s2, s3, s4])
    ensures p in Patch(ViewOf(s0), DeltaOf(last, s0.now)) && p !in ViewOf(last)
  {
    assert p in ViewOf(s0);
    DroppedAndUnseen(s1, s2, s3, s4, p);
    FiveStateRun(s0, s1, s2, s3, s4);
    DroppedTombstoneIsLost(first, [s0, s1, s2, s3, s4], last, p);
  }

  lemma DroppedAndUnseen(s1: State, s2: State, s3: State, s4: State, p: RelPath)
    requires Scanned(s1, s2) && Edited(s2, s3, Placed(p)) && Edited(s3, s4, Untracked) && p !in Visible(s1.tree)
    ensures p !in s4.rows && p !in s4.tombs
  {
  }

  lemma FiveStateRun(a: State, b: State, c: State, d: State, e: State)
    requires Next(a, b) && Next(b, c) && Next(c, d) && Next(d, e)
    ensures Run([a, b, c, d, e])
  {
  }

  // ------------------------------------------------------------ the day of the cursor

  /** A tombstone from the cursor's day is not in the delta, nor in that of any later cursor. */
  lemma SameDayTombstoneStaysOut(s: State, cursor: nat, later: nat, p: RelPath)
    requires p in s.tombs && DayOf(s.tombs[p]) <= DayOf(cursor) && cursor <= later
    ensures p !in DeltaOf(s, later).removed
  {
    DaysGoOn(cursor, later);
  }

  /** Scan, trash a synced entry, scan again on the same day. Nothing is forgotten and every step is careful, and yet the
      deletion is in no delta, with this cursor or any later one, as long as the tombstone is not written again. */
  lemma SameDayDeletionIsMissed(tree: Tree, p: RelPath) returns (first: State, s0: State, s1: State, last: State)
    requires p != [] && p in Visible(tree)
    ensures first.tree == tree && Scanned(first, s0) && Run([s0, s1]) && CarefulRun([s0, s1]) && Scanned(s1, last)
    ensures Edited(s0, s1, Trashed(p)) && s1.tree == Without(s0.tree, p)
    ensures p in Patch(ViewOf(s0), DeltaOf(last, s0.now)) && p !in ViewOf(last)
    ensures forall later :: s0.now <= later ==> p !in DeltaOf(last, later).removed
  {
    first := State(tree, map[], map[], 0);
    s0 := SomeScan(first);
    s1 := SomeEdit(s0, Without(tree, p), Trashed(p));
    last := SomeScan(s1);
    GoneFromTree(tree, p);
    DeletedSameDay(first, s0, s1, last, p);
    forall later | s0.now <= later ensures p !in DeltaOf(last, later).removed {
      SameDayTombstoneStaysOut(last, s0.now, later, p);
    }
  }

  lemma DeletedSameDay(first: State, s0: State, s1: State, last: State, p: RelPath)
    requires Scanned(first, s0) && Edited(s0, s1, Trashed(p)) && Scanned(s1, last) && last.now < DAY
    requires p in Visible(first.tree) && p !in Visible(s1.tree)
    ensures p in ViewOf(s0) && p !in ViewOf(last) && p in last.tombs && DayOf(last.tombs[p]) <= DayOf(s0.now)
    ensures Run([s0, s1]) && CarefulRun([s0, s1]) && p in Patch(ViewOf(s0), DeltaOf(last, s0.now))
  {
    TombstoneIsThere(first, s0, s1, last, p);
    OnFirstDay(last.tombs[p]);
    SameDayTombstoneStaysOut(last, s0.now, s0.now, p);
    ScannedPathsAreKnown(first, s0, s1);
  }

  lemma TombstoneIsThere(first: State, s0: State, s1: State, last: State, p: RelPath)
    requires Scanned(first, s0) && Edited(s0, s1, Trashed(p)) && Scanned(s1, last)
    requires p in Visible(first.tree) && p !in Visible(s1.tree)
    ensures p in ViewOf(s0) && p !in ViewOf(last) && p in last.tombs && last.tombs[p] <= last.now
  {
  }

  lemma OnFirstDay(time: nat)
    requires time < DAY
    ensures DayOf(time) == 0
  {
  }

  /** After a scan every visible path has a fingerprint, so trashing anything is careful. */
  lemma ScannedPathsAreKnown(first: State, s0: State, s1: State)
    requires Scanned(first, s0) && exists p :: Edited(s0, s1, Trashed(p))
    ensures Careful(s0, s1)
  {
    var p :| Edited(s0, s1, Trashed(p));
  }
}
