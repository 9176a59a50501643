/** What uploads and folder creation do to the usage that `tree_stats` reports (server/src/handlers/storage.rs). */
module UsageOfEdits {
  import opened Prelude
  import opened Paths
  import opened StagingNames
  import opened FileTree
  import opened StorageStats
  import opened Transfers
  import opened TreeEdits
  import opened Sums

  /** A placed file takes the place of the file that was there: the usage moves by the difference of their lengths, where
      partial uploads count as nothing. */
  lemma PlacingMovesUsage(tree: Tree, path: RelPath, content: Bytes, now: nat)
    requires path != [] && (path in tree ==> !tree[path].Folder?)
    ensures BytesUnder(WithFile(tree, path, content, now), []) + (if Counts(tree, path) then |tree[path].content| else 0)
         == BytesUnder(tree, []) + (if IsStagingName(Name(path)) then 0 else |content|)
  {
    var after := WithFile(tree, path, content, now);
    var others := FilesUnder(tree, []) - {path};
    UserFiles(tree);
    UserFiles(after);
    forall p ensures p in FilesUnder(after, []) - {path} <==> p in others {
      WithFileLookup(tree, path, content, now, p);
    }
    WithFileLookup(tree, path, content, now, path);
    OthersKeepLength(tree, path, content, now, others);
    AllBut(tree, path);
    AllBut(after, path);
    assert FilesUnder(after, []) - {path} == others;
  }

  lemma OthersKeepLength(tree: Tree, path: RelPath, content: Bytes, now: nat, others: set<RelPath>)
    requires path != [] && others <= tree.Keys && path !in others
    ensures TotalOf(WithFile(tree, path, content, now), others) == TotalOf(tree, others)
  {
    forall p | p in others ensures Length(WithFile(tree, path, content, now), p) == Length(tree, p) {
      WithFileLookup(tree, path, content, now, p);
    }
    SameLengths(WithFile(tree, path, content, now), tree, others);
  }

  lemma AllBut(tree: Tree, path: RelPath)
    ensures BytesUnder(tree, []) == TotalOf(tree, FilesUnder(tree, []) - {path}) + (if Counts(tree, path) then |tree[path].content| else 0)
  {
    UserFiles(tree);
    var files := FilesUnder(tree, []);
    if path in files {
      TotalPlusOne(tree, files - {path}, path);
      assert files - {path} + {path} == files;
    } else {
      assert files - {path} == files;
    }
  }

  /** New folders are free. */
  lemma FoldersAreFree(tree: Tree, path: RelPath, now: nat)
    ensures BytesUnder(WithFolders(tree, path, now), []) == BytesUnder(tree, [])
  {
    var after := WithFolders(tree, path, now);
    UserFiles(tree);
    UserFiles(after);
    forall p ensures p in FilesUnder(after, []) <==> p in FilesUnder(tree, []) {
      WithFoldersLookup(tree, path, now, p);
    }
    assert FilesUnder(after, []) == FilesUnder(tree, []);
    forall p | p in FilesUnder(tree, []) ensures Length(after, p) == Length(tree, p) {
      WithFoldersLookup(tree, path, now, p);
    }
    SameLengths(after, tree, FilesUnder(tree, []));
  }

  /** Trashing frees what the user files at or below the entry held. */
  lemma TrashingFreesUsage(tree: Tree, path: RelPath)
    ensures BytesUnder(Without(tree, path), []) + TotalOf(tree, set p | p in FilesUnder(tree, []) && AtOrBelow(path, p))
         == BytesUnder(tree, [])
  {
    var after := Without(tree, path);
    var gone := set p | p in FilesUnder(tree, []) && AtOrBelow(path, p);
    UserFiles(tree);
    UserFiles(after);
    forall p ensures p in FilesUnder(after, []) <==> p in FilesUnder(tree, []) && p !in gone {
      WithoutLookup(tree, path, p);
    }
    var kept := FilesUnder(after, []);
    forall p | p in kept ensures Length(after, p) == Length(tree, p) {
      WithoutLookup(tree, path, p);
    }
    SameLengths(after, tree, kept);
    SumDisjoint(LengthsOf(tree, FilesUnder(tree, [])), LengthsOf(tree, kept), LengthsOf(tree, gone));
  }
}
