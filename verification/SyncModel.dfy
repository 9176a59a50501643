/** Desktop sync (server/src/handlers/sync.rs): the fingerprint table, the tombstones, and what every
    operation of the server may do to them.

    A scan stamps many rows at many moments, so its effect is a relation between the state before and
    after. The clock moves on with every operation. What is stored of a moment is a text, in one of two forms, and
    the delta compares texts. */
module SyncModel {
  import opened Prelude
  import opened Text
  import opened Paths
  import opened FileTree

  /** What the manifest says about one path. */
  datatype SyncEntry =
    | FolderEntry(modified: Option<nat>)
    | FileEntry(size: nat, modified: Option<nat>, sha: Digest)

  /** A day in ticks of the clock. */
  const DAY: nat := 24 * 60 * 60 * 1_000_000_000

  function DayOf(time: nat): nat {
    time / DAY
  }

  /** A stored moment. A value bound by the server is written "2025-01-31T12:00:00.5+00:00"; `CURRENT_TIMESTAMP` writes
      "2025-01-31 12:00:00". */
  datatype Stamp = Bound(time: nat) | Current(time: nat)

  /** Whether the stored text compares as greater than a bound cursor. Two bound values compare like their moments. Of a value
      with a space only the date can decide: on the cursor's own day the space comes before the letter. */
  predicate Later(stamp: Stamp, cursor: nat) {
    match stamp
    case Bound(time) => time > cursor
    case Current(time) => DayOf(time) > DayOf(cursor)
  }

  /** One row of `sync_file_fingerprints`; the last sighting is always a bound value. */
  datatype Row = Row(entry: SyncEntry, lastSeen: nat, updatedAt: Stamp)

  type View = map<RelPath, SyncEntry>

  /** One account: its files, its fingerprints, its tombstones with the moments their `CURRENT_TIMESTAMP` was taken, and the clock. */
  datatype State = State(tree: Tree, rows: map<RelPath, Row>, tombs: map<RelPath, nat>, now: nat)

  /** Trash is never synced, and neither is anything hidden at the top. */
  const SYNCED: Filter := (p: RelPath) =>
    p != [] && Name(p) != TRASH_NAME && !(|p| == 1 && Name(p) != "" && Name(p)[0] == '.')

  /** The paths a complete walk reports. */
  function Visible(tree: Tree): set<RelPath> {
    ShownSet(tree, [], SYNCED)
  }

  predicate Syncable(p: RelPath) {
    Below([], p) && PassesAlong(SYNCED, [], p)
  }

  /** What is synced: everything but what lies in or is called like the trash, and what is hidden at the top. */
  lemma SyncableIff(p: RelPath)
    ensures Syncable(p) <==> p != [] && TRASH_NAME !in p && !(p[0] != "" && p[0][0] == '.')
  {
    forall i | 0 < i <= |p| ensures p[..i] != [] && Name(p[..i]) == p[i - 1] {
    }
    if Syncable(p) {
      assert SYNCED(p[..1]);
      forall i | 0 <= i < |p| ensures p[i] != TRASH_NAME {
        assert SYNCED(p[..i + 1]);
      }
    }
  }

  // ------------------------------------------------------------ scans

  /** The stored hash is used again when size and modification time are those of the stored row. */
  function HashOf(rows: map<RelPath, Row>, p: RelPath, content: Bytes, modified: Option<nat>): Digest {
    if p in rows && rows[p].entry.FileEntry? && rows[p].entry.size == |content| && rows[p].entry.modified == modified
    then rows[p].entry.sha
    else Sha256(content)
  }

  function ScanEntry(rows: map<RelPath, Row>, tree: Tree, p: RelPath): SyncEntry
    requires p in tree && Real(tree[p])
  {
    match tree[p]
    case Folder(modified) => FolderEntry(modified)
    case File(content, modified) => FileEntry(|content|, modified, HashOf(rows, p, content, modified))
  }

  /** The row of a path after the scan saw it: a new row is stamped with a bound value, a changed one with the current
      timestamp, and an unchanged entry keeps its stamp. */
  predicate Refreshed(rows: map<RelPath, Row>, p: RelPath, entry: SyncEntry, row: Row, after: nat, until: nat) {
    && row.entry == entry
    && after < row.lastSeen <= until
    && (if p in rows && rows[p].entry == entry then row.updatedAt == rows[p].updatedAt
        else after < row.updatedAt.time <= until && (row.updatedAt.Bound? <==> p !in rows))
  }

  /** The table and the tombstones once the walk has dealt with the paths in `seen`. */
  ghost predicate Collected(s: State, rows: map<RelPath, Row>, seen: set<RelPath>, now: nat) {
    && s.now < now
    && seen <= Visible(s.tree)
    && rows.Keys == s.rows.Keys + seen
    && (forall p :: p in seen ==> Refreshed(s.rows, p, ScanEntry(s.rows, s.tree, p), rows[p], s.now, now))
    && (forall p :: p in s.rows && p !in seen ==> rows[p] == s.rows[p])
  }

  /** Tombstones after some were dropped and some were written. */
  ghost predicate Marked(before: map<RelPath, nat>, after: map<RelPath, nat>,
                         dropped: set<RelPath>, written: set<RelPath>, from: nat, until: nat) {
    && after.Keys == (before.Keys - dropped) + written
    && (forall p :: p in written ==> from < after[p] <= until)
    && (forall p :: p in after && p !in written ==> after[p] == before[p])
  }

  /** A completed scan. */
  ghost predicate Scanned(s: State, s': State) {
    && s'.tree == s.tree && s.now < s'.now
    && s'.rows.Keys == Visible(s.tree)
    && (forall p :: p in s'.rows ==> Refreshed(s.rows, p, ScanEntry(s.rows, s.tree, p), s'.rows[p], s.now, s'.now))
    && Marked(s.tombs, s'.tombs, Visible(s.tree), s.rows.Keys - Visible(s.tree), s.now, s'.now)
  }

  /** A scan that stopped early: it saw some paths, may have dropped the tombstone of one more, and
      may have written some tombstones without deleting the rows they are for. */
  ghost predicate PartlyScanned(s: State, s': State, seen: set<RelPath>, torn: set<RelPath>, written: set<RelPath>) {
    && s'.tree == s.tree
    && Collected(s, s'.rows, seen, s'.now)
    && torn <= Visible(s.tree)
    && written <= s.rows.Keys - Visible(s.tree)
    && Marked(s.tombs, s'.tombs, seen + torn, written, s.now, s'.now)
  }

  // ------------------------------------------------------------ the other operations

  /** What other handlers do to the tombstones, besides changing files. `create_folder` uses the request text as it came. */
  datatype Edit =
    | Placed(path: RelPath)
    | FolderCreated(text: string)
    | Trashed(path: RelPath)
    | Untracked

  /** A finished upload or a restore drops one tombstone; creating a folder drops that of the text it was given, and all those
      that match the text followed by a slash and anything, as a LIKE pattern. */
  function Dropped(edit: Edit, tombs: map<RelPath, nat>): set<RelPath> {
    match edit
    case Placed(path) => {path}
    case FolderCreated(text) => set p | p in tombs && (Display(p) == text || Like(Display(p), text + "/%"))
    case _ => {}
  }

  function Written(edit: Edit): set<RelPath> {
    if edit.Trashed? then {edit.path} else {}
  }

  /** Any change to the files, with the tombstones that go with it. No handler touches the fingerprints. */
  ghost predicate Edited(s: State, s': State, edit: Edit) {
    && s'.rows == s.rows && s.now < s'.now
    && Marked(s.tombs, s'.tombs, Dropped(edit, s.tombs), Written(edit), s.now, s'.now)
  }

  ghost predicate Next(s: State, s': State) {
    || Scanned(s, s')
    || (exists seen, torn, written :: PartlyScanned(s, s', seen, torn, written))
    || (exists edit :: Edited(s, s', edit))
  }

  /** Consecutive states of one run. */
  ghost predicate Run(states: seq<State>) {
    forall i, j :: 0 <= i < j < |states| && j == i + 1 ==> Next(states[i], states[j])
  }

  // ------------------------------------------------------------ answers

  /** The entries of a manifest, and of the view a client builds from it. */
  function ViewOf(s: State): View {
    map p | p in s.rows :: s.rows[p].entry
  }

  datatype Delta = Delta(changed: View, removed: set<RelPath>)

  /** What `sync_delta` answers after its scan: rows and tombstones whose stamps compare as later than the cursor. */
  function DeltaOf(s: State, since: nat): Delta {
    Delta(map p | p in s.rows && Later(s.rows[p].updatedAt, since) :: s.rows[p].entry,
          set p | p in s.tombs && Later(Current(s.tombs[p]), since))
  }

  /** What a client does with a delta: overwrite the entries, remove the tombstones. */
  function Patch(view: View, delta: Delta): View {
    (view - delta.removed) + delta.changed
  }
}
