/** The hash cache of the sync scan agrees with hashing every file (server/src/handlers/sync.rs). */
module SyncHashes {
  import opened Prelude
  import opened Paths
  import opened FileTree
  import opened SyncModel

  /** What a file at a path holds, when its size and modification time decide that. */
  type Contents = (RelPath, nat, Option<nat>) -> Bytes

  /** Equal size and modification time of a synced file mean equal bytes. */
  ghost predicate Determined(tree: Tree, contents: Contents) {
    forall p :: p in Visible(tree) && tree[p].File? ==>
      tree[p].content == contents(p, |tree[p].content|, tree[p].modified)
  }

  /** Every stored hash is the hash of what its size and time stand for. */
  ghost predicate CacheAgrees(rows: map<RelPath, Row>, contents: Contents) {
    forall p :: p in rows && rows[p].entry.FileEntry? ==>
      rows[p].entry.sha == Sha256(contents(p, rows[p].entry.size, rows[p].entry.modified))
  }

  /** What a scan would report if it hashed every file. */
  function HashedEntry(node: Node): SyncEntry
    requires Real(node)
  {
    match node
    case Folder(modified) => FolderEntry(modified)
    case File(content, modified) => FileEntry(|content|, modified, Sha256(content))
  }

  lemma CachedEntryIsHashed(rows: map<RelPath, Row>, tree: Tree, contents: Contents, p: RelPath)
    requires CacheAgrees(rows, contents) && Determined(tree, contents) && p in Visible(tree)
    ensures ScanEntry(rows, tree, p) == HashedEntry(tree[p])
  {
  }

  lemma NextAgrees(s: State, s': State, contents: Contents)
    requires CacheAgrees(s.rows, contents) && Determined(s.tree, contents) && Next(s, s')
    ensures CacheAgrees(s'.rows, contents)
  {
    forall p | p in s'.rows && s'.rows[p].entry.FileEntry?
      ensures s'.rows[p].entry.sha == Sha256(contents(p, s'.rows[p].entry.size, s'.rows[p].entry.modified))
    {
      if !(p in s.rows && s'.rows[p] == s.rows[p]) {
        NewRowComesFromScan(s, s', p);
        CachedEntryIsHashed(s.rows, s.tree, contents, p);
      }
    }
  }

  lemma NewRowComesFromScan(s: State, s': State, p: RelPath)
    requires Next(s, s') && p in s'.rows && !(p in s.rows && s'.rows[p] == s.rows[p])
    ensures p in Visible(s.tree) && s'.rows[p].entry == ScanEntry(s.rows, s.tree, p)
  {
  }

  lemma {:induction false} RunAgrees(states: seq<State>, contents: Contents)
    requires states != [] && Run(states) && CacheAgrees(states[0].rows, contents)
    requires forall i :: 0 <= i < |states| ==> Determined(states[i].tree, contents)
    ensures CacheAgrees(states[|states| - 1].rows, contents)
    decreases |states|
  {
    if |states| > 1 {
      NextAgrees(states[0], states[1], contents);
      RunAgrees(states[1..], contents);
    }
  }

  /** Over every run of scans and file changes, each manifest entry is what hashing the file would give. */
  lemma ManifestHashesAreFresh(states: seq<State>, last: State, contents: Contents)
    requires states != [] && Run(states) && states[0].rows == map[]
    requires forall i :: 0 <= i < |states| ==> Determined(states[i].tree, contents)
    requires Scanned(states[|states| - 1], last)
    ensures ViewOf(last).Keys == Visible(last.tree)
    ensures forall p :: p in ViewOf(last) ==>
              match last.tree[p]
              case File(content, modified) => ViewOf(last)[p] == FileEntry(|content|, modified, Sha256(content))
              case Folder(modified) => ViewOf(last)[p] == FolderEntry(modified)
              case _ => false
  {
    RunAgrees(states, contents);
    forall p | p in ViewOf(last) ensures ViewOf(last)[p] == HashedEntry(last.tree[p]) {
      CachedEntryIsHashed(states[|states| - 1].rows, last.tree, contents, p);
    }
  }

  /** Without the assumption the cached hash of a changed file is wrong, whatever its path. */
  lemma SameStampIsMissed(s: State, s': State, p: RelPath, earlier: Bytes)
    requires Scanned(s, s') && p in Visible(s.tree) && s.tree[p].File?
    requires p in s.rows && s.rows[p].entry == FileEntry(|earlier|, s.tree[p].modified, Sha256(earlier))
    requires |s.tree[p].content| == |earlier|
    ensures ViewOf(s')[p] == HashedEntry(s.tree[p]) <==> s.tree[p].content == earlier
  {
    assert p in s'.rows;
  }
}
