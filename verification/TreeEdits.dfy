/** What the handlers outside sync do to an account's tree: uploads and restores put entries in, folder creation
    makes folders, the trash takes entries out. */
module TreeEdits {
  import opened Prelude
  import opened Paths
  import opened FileTree

  /** The path itself and everything that encloses it. */
  function Prefixes(path: RelPath): set<RelPath> {
    set i | 0 <= i <= |path| :: path[..i]
  }

  /** `create_dir_all` works when nothing on the way is anything but a folder. */
  predicate CanMakeFolders(tree: Tree, path: RelPath) {
    forall p :: p in Prefixes(path) && p in tree ==> tree[p].Folder?
  }

  function WithFolders(tree: Tree, path: RelPath, now: nat): Tree {
    tree + map p | p in Prefixes(path) && p !in tree :: Folder(Some(now))
  }

  /** A file renamed onto a path, its parent folders made first. */
  function WithFile(tree: Tree, path: RelPath, content: Bytes, now: nat): Tree
    requires path != []
  {
    WithFolders(tree, Parent(path), now)[path := File(content, Some(now))]
  }

  /** A trashed entry with everything in it renamed back to a free path; `item` is relative to the entry. */
  function WithEntry(tree: Tree, path: RelPath, item: Tree, now: nat): Tree
    requires path != []
  {
    WithFolders(tree, Parent(path), now) + Grafted(path, item)
  }

  /** The entries of an item, at the place it goes to. */
  function Grafted(path: RelPath, item: Tree): Tree {
    map p | p in (set q | q in item :: path + q) && AtOrBelow(path, p) && p[|path|..] in item :: item[p[|path|..]]
  }

  lemma GraftedLookup(path: RelPath, item: Tree, p: RelPath)
    ensures p in Grafted(path, item) <==> AtOrBelow(path, p) && p[|path|..] in item
    ensures p in Grafted(path, item) ==> Grafted(path, item)[p] == item[p[|path|..]]
  {
    if AtOrBelow(path, p) && p[|path|..] in item {
      assert p == path + p[|path|..];
    }
  }

  /** An entry and everything in it renamed away. */
  function Without(tree: Tree, path: RelPath): Tree {
    map p | p in tree && !AtOrBelow(path, p) :: tree[p]
  }

  lemma PrefixOf(path: RelPath, p: RelPath)
    ensures p in Prefixes(path) <==> AtOrBelow(p, path)
  {
    if AtOrBelow(p, path) {
      assert path[..|p|] == p;
    }
  }

  // ------------------------------------------------------------ what is where afterwards

  /** Making folders keeps every entry and adds exactly the missing folders on the way. */
  lemma WithFoldersLookup(tree: Tree, path: RelPath, now: nat, p: RelPath)
    ensures var after := WithFolders(tree, path, now);
            && (p in after <==> p in tree || AtOrBelow(p, path))
            && (p in tree ==> after[p] == tree[p])
            && (p in after && p !in tree ==> after[p] == Folder(Some(now)))
  {
    PrefixOf(path, p);
  }

  /** An upload puts exactly these bytes at its path, makes the missing folders on the way, and keeps every other entry. */
  lemma WithFileLookup(tree: Tree, path: RelPath, content: Bytes, now: nat, p: RelPath)
    requires path != []
    ensures var after := WithFile(tree, path, content, now);
            && (p == path ==> p in after && after[p] == File(content, Some(now)))
            && (p != path ==>
                  && (p in after <==> p in tree || AtOrBelow(p, Parent(path)))
                  && (p in tree ==> after[p] == tree[p])
                  && (p in after && p !in tree ==> after[p] == Folder(Some(now))))
  {
    WithFoldersLookup(tree, Parent(path), now, p);
  }

  /** Trashing takes exactly what is at or below the path. */
  lemma WithoutLookup(tree: Tree, path: RelPath, p: RelPath)
    ensures var after := Without(tree, path);
            && (p in after <==> p in tree && !AtOrBelow(path, p))
            && (p in after ==> after[p] == tree[p])
  {
  }

  /** An entry with everything in it, relative to the entry: what the trash keeps. */
  function Taken(tree: Tree, path: RelPath): Tree {
    map q | q in (set p | p in tree && AtOrBelow(path, p) :: p[|path|..]) && path + q in tree :: tree[path + q]
  }

  lemma TakenLookup(tree: Tree, path: RelPath, q: RelPath)
    ensures q in Taken(tree, path) <==> path + q in tree
    ensures q in Taken(tree, path) ==> Taken(tree, path)[q] == tree[path + q]
  {
    if path + q in tree {
      assert (path + q)[..|path|] == path && (path + q)[|path|..] == q;
    }
  }

  /** A restore puts the item at its path, makes the missing folders on the way, and keeps every other entry. */
  lemma WithEntryLookup(tree: Tree, path: RelPath, item: Tree, now: nat, p: RelPath)
    requires path != []
    ensures var after := WithEntry(tree, path, item, now);
            if AtOrBelow(path, p) && p[|path|..] in item then p in after && after[p] == item[p[|path|..]]
            else
              && (p in after <==> p in tree || AtOrBelow(p, Parent(path)))
              && (p in tree ==> after[p] == tree[p])
              && (p in after && p !in tree ==> after[p] == Folder(Some(now)))
  {
    GraftedLookup(path, item, p);
    WithFoldersLookup(tree, Parent(path), now, p);
  }

  /** Two trees agree about a path. */
  predicate Agree(a: Tree, b: Tree, p: RelPath) {
    (p in a <==> p in b) && (p in a ==> a[p] == b[p])
  }

  /** Restoring what was trashed gives the tree back. */
  lemma RestoreUndoesTrash(tree: Tree, path: RelPath, now: nat)
    requires WellFormed(tree) && path != [] && path in tree
    ensures WithEntry(Without(tree, path), path, Taken(tree, path), now) == tree
  {
    var gone, item := Without(tree, path), Taken(tree, path);
    var back := WithEntry(gone, path, item, now);
    forall p ensures Agree(back, tree, p) {
      WithEntryLookup(gone, path, item, now, p);
      if AtOrBelow(path, p) {
        BackInside(tree, path, p);
      } else {
        BackOutside(tree, path, p);
      }
    }
    SameEverywhere(back, tree);
  }

  lemma SameEverywhere(a: Tree, b: Tree)
    requires forall p :: Agree(a, b, p)
    ensures a == b
  {
    forall p ensures p in a <==> p in b {
      assert Agree(a, b, p);
    }
    forall p | p in a ensures a[p] == b[p] {
      assert Agree(a, b, p);
    }
  }

  lemma BackInside(tree: Tree, path: RelPath, p: RelPath)
    requires path != [] && AtOrBelow(path, p)
    ensures p[|path|..] in Taken(tree, path) <==> p in tree
    ensures p in tree ==> Taken(tree, path)[p[|path|..]] == tree[p]
    ensures p !in Without(tree, path) && !AtOrBelow(p, Parent(path))
  {
    TakenLookup(tree, path, p[|path|..]);
    assert path + p[|path|..] == p;
  }

  lemma BackOutside(tree: Tree, path: RelPath, p: RelPath)
    requires WellFormed(tree) && path != [] && path in tree && !AtOrBelow(path, p)
    ensures p in Without(tree, path) <==> p in tree
    ensures p in tree ==> Without(tree, path)[p] == tree[p]
    ensures AtOrBelow(p, Parent(path)) ==> p in tree
  {
    WithoutLookup(tree, path, p);
    if AtOrBelow(p, Parent(path)) {
      assert path[..|p|] == p;
      AboveIsThere(tree, path, p);
    }
  }

  /** Everything that encloses an entry is there. */
  lemma AboveIsThere(tree: Tree, path: RelPath, p: RelPath)
    requires WellFormed(tree) && path in tree && AtOrBelow(p, path)
    ensures p in tree
    decreases |path|
  {
    if |p| == |path| {
      assert p == path;
    } else {
      assert Parent(path)[..|p|] == p;
      AboveIsThere(tree, Parent(path), p);
    }
  }

  lemma WithFoldersStaysWellFormed(tree: Tree, path: RelPath, now: nat)
    requires WellFormed(tree) && CanMakeFolders(tree, path)
    ensures WellFormed(WithFolders(tree, path, now))
    ensures path in WithFolders(tree, path, now) && WithFolders(tree, path, now)[path].Folder?
  {
    var after := WithFolders(tree, path, now);
    PrefixOf(path, path);
    assert path[..|path|] == path;
    forall p | p in after && p != [] ensures Parent(p) in after && after[Parent(p)].Folder? {
      if p !in tree {
        PrefixOf(path, p);
        assert path[..|p| - 1] == Parent(p);
        PrefixOf(path, Parent(p));
      }
    }
  }

  lemma WithFileStaysWellFormed(tree: Tree, path: RelPath, content: Bytes, now: nat)
    requires WellFormed(tree) && path != [] && CanMakeFolders(tree, Parent(path)) && (path in tree ==> !tree[path].Folder?)
    ensures WellFormed(WithFile(tree, path, content, now))
  {
    WithFoldersStaysWellFormed(tree, Parent(path), now);
    var made, after := WithFolders(tree, Parent(path), now), WithFile(tree, path, content, now);
    PrefixOf(Parent(path), path);
    assert path !in Prefixes(Parent(path));
    forall p | p in after && p != [] ensures Parent(p) in after && after[Parent(p)].Folder? {
      if p == path {
      } else {
        assert p in made && made[Parent(p)].Folder?;
      }
    }
  }

  lemma WithEntryStaysWellFormed(tree: Tree, path: RelPath, item: Tree, now: nat)
    requires WellFormed(tree) && WellFormed(item) && path != [] && [] in item && CanMakeFolders(tree, Parent(path)) && path !in tree
    ensures WellFormed(WithEntry(tree, path, item, now))
  {
    WithFoldersStaysWellFormed(tree, Parent(path), now);
    var after := WithEntry(tree, path, item, now);
    forall p | p in after && p != [] ensures Parent(p) in after && after[Parent(p)].Folder? {
      GraftedLookup(path, item, p);
      GraftedLookup(path, item, Parent(p));
      GraftedParent(tree, path, item, now, p);
    }
  }

  lemma GraftedParent(tree: Tree, path: RelPath, item: Tree, now: nat, p: RelPath)
    requires WellFormed(tree) && WellFormed(item) && path != [] && [] in item && CanMakeFolders(tree, Parent(path)) && path !in tree
    requires p != [] && p in WithEntry(tree, path, item, now)
    requires WellFormed(WithFolders(tree, Parent(path), now))
    requires Parent(path) in WithFolders(tree, Parent(path), now) && WithFolders(tree, Parent(path), now)[Parent(path)].Folder?
    ensures Parent(p) in WithEntry(tree, path, item, now) && WithEntry(tree, path, item, now)[Parent(p)].Folder?
  {
    GraftedLookup(path, item, p);
    GraftedLookup(path, item, Parent(p));
    if p in Grafted(path, item) {
      if |p| == |path| {
        assert p == p[..|path|];
      } else {
        var q := p[|path|..];
        assert Parent(q) == Parent(p)[|path|..];
        assert Parent(p)[..|path|] == path;
      }
    } else {
      NothingAtFreePath(tree, path, now, Parent(p));
    }
  }

  /** Making the folders around a free path puts nothing at or below it. */
  lemma NothingAtFreePath(tree: Tree, path: RelPath, now: nat, p: RelPath)
    requires WellFormed(tree) && path != [] && path !in tree
    ensures p in WithFolders(tree, Parent(path), now) ==> !AtOrBelow(path, p)
  {
    PrefixOf(Parent(path), p);
    if p in tree {
      NothingBelowAbsent(tree, path, p);
    }
  }

  lemma WithoutStaysWellFormed(tree: Tree, path: RelPath)
    requires WellFormed(tree)
    ensures WellFormed(Without(tree, path))
  {
    forall p | p in Without(tree, path) && p != [] ensures !AtOrBelow(path, Parent(p)) {
      BelowParent(path, p);
    }
  }
}
