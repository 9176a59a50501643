/** Copy and move requests (server/src/handlers/files.rs): what they produce, and what they do to the
    usage that quotas are checked against. */
module Transfers {
  import opened Prelude
  import opened Paths
  import opened StagingNames
  import opened FileTree
  import opened StorageStats
  import opened CopyTree
  import opened Sums

  // ------------------------------------------------------------ copy, exactly

  lemma CopySetMembers(tree: Tree, src: RelPath, q: RelPath)
    requires src in tree
    ensures q in CopySet(tree, src) <==> q == src || (q in tree && Real(tree[q]) && Below(src, q))
  {
    assert forall p :: EVERYTHING(p);
  }

  /** Copy correctness: the copy holds exactly the real entries of the source, folders as folders and files with the very
      bytes of the original, all of them modified now; the source and everything else stay as they were. */
  lemma CopyIsExact(tree: Tree, src: RelPath, dst: RelPath, now: nat, p: RelPath)
    requires Vacant(tree, dst) && Apart(src, dst) && src in tree && Real(tree[src])
    ensures var after := Copied(tree, src, dst, now, CopySet(tree, src));
            && (!AtOrBelow(dst, p) ==> (p in after <==> p in tree) && (p in tree ==> after[p] == tree[p]))
            && (AtOrBelow(dst, p) ==>
                  var q := Image(dst, src, p);
                  && (p in after <==> q in tree && Real(tree[q]))
                  && (p in after ==>
                        && (after[p].File? <==> tree[q].File?) && (after[p].Folder? <==> tree[q].Folder?)
                        && (tree[q].File? ==> after[p].content == tree[q].content)
                        && after[p].modified == Some(now)))
    ensures AtOrBelow(src, p) ==> !AtOrBelow(dst, p)
  {
    CopiedLookup(tree, src, dst, now, CopySet(tree, src), p);
    if AtOrBelow(dst, p) {
      ImageBack(dst, src, p);
      CopySetMembers(tree, src, Image(dst, src, p));
    }
    NeverBoth(src, dst, p);
  }

  lemma CopyStaysWellFormed(tree: Tree, src: RelPath, dst: RelPath, now: nat)
    requires WellFormed(tree) && Vacant(tree, dst) && Apart(src, dst) && src in tree && Real(tree[src])
    requires dst != [] && Parent(dst) in tree && tree[Parent(dst)].Folder?
    ensures WellFormed(Copied(tree, src, dst, now, CopySet(tree, src)))
  {
    var after := Copied(tree, src, dst, now, CopySet(tree, src));
    forall p | p in after && p != [] ensures Parent(p) in after && after[Parent(p)].Folder? {
      CopyIsExact(tree, src, dst, now, p);
      CopyIsExact(tree, src, dst, now, Parent(p));
      if AtOrBelow(dst, p) && p != dst {
        InnerImage(src, dst, p);
      }
    }
  }

  lemma InnerImage(src: RelPath, dst: RelPath, p: RelPath)
    requires AtOrBelow(dst, p) && p != dst
    ensures p != [] && AtOrBelow(dst, Parent(p))
    ensures Image(dst, src, p) != [] && Image(dst, src, Parent(p)) == Parent(Image(dst, src, p))
    ensures Name(Image(dst, src, p)) == Name(p)
  {
    assert |p| > |dst|;
    assert Parent(p)[..|dst|] == p[..|dst|];
  }

  // ------------------------------------------------------------ usage of a copy

  lemma UserFiles(tree: Tree)
    ensures FilesUnder(tree, []) == set p | p in tree && Counts(tree, p)
  {
    assert forall p :: EVERYTHING(p);
  }

  /** The image of a path, for every path. */
  function Renaming(src: RelPath, dst: RelPath): RelPath -> RelPath {
    (q: RelPath) => if |src| <= |q| then dst + q[|src|..] else dst
  }

  lemma ImageCounts(tree: Tree, src: RelPath, dst: RelPath, now: nat, p: RelPath)
    requires Vacant(tree, dst) && Apart(src, dst) && src in tree && Real(tree[src])
    requires src != [] && dst != [] && Name(src) == Name(dst) && AtOrBelow(dst, p)
    ensures var after := Copied(tree, src, dst, now, CopySet(tree, src));
            var q := Image(dst, src, p);
            Counts(after, p) == Counts(tree, q) && Length(after, p) == Length(tree, q)
  {
    CopyIsExact(tree, src, dst, now, p);
    if p == dst {
      assert Image(dst, src, p) == src;
    } else {
      InnerImage(src, dst, p);
    }
  }

  lemma CopiedFiles(tree: Tree, src: RelPath, dst: RelPath, now: nat)
    requires Vacant(tree, dst) && Apart(src, dst) && src in tree && Real(tree[src])
    requires src != [] && dst != [] && Name(src) == Name(dst)
    ensures var after := Copied(tree, src, dst, now, CopySet(tree, src));
            var originals := CountedIn(tree, CopySet(tree, src));
            FilesUnder(after, []) == FilesUnder(tree, []) + Images(src, dst, originals)
    ensures FilesUnder(tree, []) !! Images(src, dst, CountedIn(tree, CopySet(tree, src)))
  {
    var after := Copied(tree, src, dst, now, CopySet(tree, src));
    var originals := CountedIn(tree, CopySet(tree, src));
    UserFiles(tree);
    UserFiles(after);
    forall p ensures p in FilesUnder(after, []) <==> p in FilesUnder(tree, []) || p in Images(src, dst, originals) {
      CopyIsExact(tree, src, dst, now, p);
      if AtOrBelow(dst, p) {
        ImageCounts(tree, src, dst, now, p);
        ImageBack(dst, src, p);
        CopySetMembers(tree, src, Image(dst, src, p));
        ImageMember(src, dst, originals, p);
      }
    }
  }

  lemma ImageMember(src: RelPath, dst: RelPath, done: set<RelPath>, p: RelPath)
    requires AtOrBelow(dst, p)
    ensures p in Images(src, dst, done) <==> Image(dst, src, p) in done
  {
    ImageBack(dst, src, p);
    if p in Images(src, dst, done) {
      var q :| q in done && AtOrBelow(src, q) && Image(src, dst, q) == p;
      ImageBack(src, dst, q);
    }
  }

  /** The copies are as long as the originals. */
  lemma CopiedBytes(tree: Tree, src: RelPath, dst: RelPath, now: nat)
    requires Vacant(tree, dst) && Apart(src, dst) && src in tree && Real(tree[src])
    requires src != [] && dst != [] && Name(src) == Name(dst)
    ensures var after := Copied(tree, src, dst, now, CopySet(tree, src));
            var originals := CountedIn(tree, CopySet(tree, src));
            TotalOf(after, Images(src, dst, originals)) == TotalOf(tree, originals)
  {
    var after := Copied(tree, src, dst, now, CopySet(tree, src));
    var originals := CountedIn(tree, CopySet(tree, src));
    var copies := Images(src, dst, originals);
    forall q | q in originals
      ensures AtOrBelow(src, q) && Renaming(src, dst)(q) in copies && Length(after, Renaming(src, dst)(q)) == Length(tree, q)
    {
      CopySetMembers(tree, src, q);
      ImageBack(src, dst, q);
      ImageCounts(tree, src, dst, now, Image(src, dst, q));
    }
    forall q, q' | q in originals && q' in originals && Renaming(src, dst)(q) == Renaming(src, dst)(q') ensures q == q' {
      ImageBack(src, dst, q);
      ImageBack(src, dst, q');
    }
    SumRenamed(LengthsOf(tree, originals), LengthsOf(after, copies), Renaming(src, dst));
  }

  lemma SameLengths(a: Tree, b: Tree, files: set<RelPath>)
    requires forall p :: p in files ==> Length(a, p) == Length(b, p)
    ensures TotalOf(a, files) == TotalOf(b, files)
  {
    assert LengthsOf(a, files) == LengthsOf(b, files);
  }

  /** A copy makes the usage of the account grow by exactly the user files among what was copied. */
  lemma CopyGrowth(tree: Tree, src: RelPath, dst: RelPath, now: nat)
    requires Vacant(tree, dst) && Apart(src, dst) && src in tree && Real(tree[src])
    requires src != [] && dst != [] && Name(src) == Name(dst)
    ensures BytesUnder(Copied(tree, src, dst, now, CopySet(tree, src)), [])
         == BytesUnder(tree, []) + TotalOf(tree, CountedIn(tree, CopySet(tree, src)))
  {
    var after := Copied(tree, src, dst, now, CopySet(tree, src));
    var old', copies := FilesUnder(tree, []), Images(src, dst, CountedIn(tree, CopySet(tree, src)));
    CopiedFiles(tree, src, dst, now);
    CopiedBytes(tree, src, dst, now);
    SumDisjoint(LengthsOf(after, old' + copies), LengthsOf(after, old'), LengthsOf(after, copies));
    forall p | p in old' ensures Length(after, p) == Length(tree, p) {
      CopyIsExact(tree, src, dst, now, p);
    }
    SameLengths(after, tree, old');
  }

  /** The usage grows by the very `folder_size` that the quota check of a folder copy used. */
  lemma FolderCopyGrowsByFolderSize(tree: Tree, src: RelPath, dst: RelPath, now: nat)
    requires Vacant(tree, dst) && Apart(src, dst) && src in tree && tree[src].Folder?
    requires src != [] && dst != [] && Name(src) == Name(dst)
    ensures BytesUnder(Copied(tree, src, dst, now, CopySet(tree, src)), [])
         == BytesUnder(tree, []) + BytesUnder(tree, src)
  {
    CopyGrowth(tree, src, dst, now);
    assert CountedIn(tree, CopySet(tree, src)) == FilesUnder(tree, src);
  }

  lemma FileGrowth(tree: Tree, src: RelPath, dst: RelPath, now: nat)
    requires WellFormed(tree) && Vacant(tree, dst) && Apart(src, dst) && src in tree && tree[src].File?
    requires src != [] && dst != [] && Name(src) == Name(dst)
    ensures BytesUnder(Copied(tree, src, dst, now, CopySet(tree, src)), [])
         == BytesUnder(tree, []) + (if IsStagingName(Name(src)) then 0 else |tree[src].content|)
  {
    CopyGrowth(tree, src, dst, now);
    CopySetOfFile(tree, src);
    assert CountedIn(tree, CopySet(tree, src)) == if Counts(tree, src) then {src} else {};
    assert {} + {src} == {src} && LengthsOf(tree, {}) == map[];
    TotalPlusOne(tree, {}, src);
  }

  /** A single file is checked with its own length; the usage grows by that length exactly when the file
      is not named like a partial upload (or is empty). */
  lemma FileCopyGrowth(tree: Tree, src: RelPath, dst: RelPath, now: nat)
    requires WellFormed(tree) && Vacant(tree, dst) && Apart(src, dst) && src in tree && tree[src].File?
    requires src != [] && dst != [] && Name(src) == Name(dst)
    ensures BytesUnder(Copied(tree, src, dst, now, CopySet(tree, src)), []) == BytesUnder(tree, []) + |tree[src].content| <==>
            !IsStagingName(Name(src)) || tree[src].content == []
  {
    FileGrowth(tree, src, dst, now);
  }

  lemma FileHasNothingBelow(tree: Tree, src: RelPath, q: RelPath)
    requires WellFormed(tree) && src in tree && tree[src].File? && q in tree
    ensures !Below(src, q)
  {
    if Below(src, q) {
      assert Parent(q)[..|src|] == src;
      FolderAbove(tree, src, Parent(q));
    }
  }

  // ------------------------------------------------------------ moves

  /** A rename carries everything at or below the source along, links and special files included. */
  function Moved(tree: Tree, src: RelPath, dst: RelPath): Tree {
    map p | p in MovedPaths(tree, src, dst) && Origin(tree, src, dst, p) in tree :: tree[Origin(tree, src, dst, p)]
  }

  function MovedPaths(tree: Tree, src: RelPath, dst: RelPath): set<RelPath> {
    Images(src, dst, tree.Keys) + set p | p in tree && !AtOrBelow(src, p)
  }

  function Origin(tree: Tree, src: RelPath, dst: RelPath, p: RelPath): RelPath {
    if AtOrBelow(dst, p) then Image(dst, src, p) else p
  }

  lemma MovedLookup(tree: Tree, src: RelPath, dst: RelPath, p: RelPath)
    requires Vacant(tree, dst) && Apart(src, dst)
    ensures AtOrBelow(src, p) ==> p !in Moved(tree, src, dst)
    ensures AtOrBelow(dst, p) ==>
              var q := Image(dst, src, p);
              && (p in Moved(tree, src, dst) <==> q in tree)
              && (q in tree ==> Moved(tree, src, dst)[p] == tree[q])
    ensures !AtOrBelow(src, p) && !AtOrBelow(dst, p) ==>
              && (p in Moved(tree, src, dst) <==> p in tree)
              && (p in tree ==> Moved(tree, src, dst)[p] == tree[p])
  {
    if AtOrBelow(dst, p) {
      ImageMember(src, dst, tree.Keys, p);
    }
    NeverBoth(src, dst, p);
  }

  /** Moving back undoes a move. */
  lemma MoveBack(tree: Tree, src: RelPath, dst: RelPath)
    requires Vacant(tree, dst) && Apart(src, dst)
    ensures Moved(Moved(tree, src, dst), dst, src) == tree
  {
    VacatedSource(tree, src, dst);
    forall p ensures SameAt(Moved(Moved(tree, src, dst), dst, src), tree, p) {
      MovedThereAndBack(tree, src, dst, p);
    }
    SameEverywhere(Moved(Moved(tree, src, dst), dst, src), tree);
  }

  ghost predicate SameAt(a: Tree, b: Tree, p: RelPath) {
    (p in a <==> p in b) && (p in a ==> a[p] == b[p])
  }

  lemma SameEverywhere(a: Tree, b: Tree)
    requires forall p :: SameAt(a, b, p)
    ensures a == b
  {
    assert forall p :: SameAt(a, b, p) ==> (p in a <==> p in b) && (p in a ==> a[p] == b[p]);
  }

  lemma VacatedSource(tree: Tree, src: RelPath, dst: RelPath)
    requires Vacant(tree, dst) && Apart(src, dst)
    ensures Vacant(Moved(tree, src, dst), src)
  {
    forall p | p in Moved(tree, src, dst) ensures !AtOrBelow(src, p) {
      MovedLookup(tree, src, dst, p);
    }
  }

  lemma MovedThereAndBack(tree: Tree, src: RelPath, dst: RelPath, p: RelPath)
    requires Vacant(tree, dst) && Apart(src, dst) && Vacant(Moved(tree, src, dst), src)
    ensures SameAt(Moved(Moved(tree, src, dst), dst, src), tree, p)
  {
    MovedLookup(Moved(tree, src, dst), dst, src, p);
    if AtOrBelow(src, p) {
      ImageBack(src, dst, p);
      MovedLookup(tree, src, dst, Image(src, dst, p));
    } else {
      MovedLookup(tree, src, dst, p);
    }
  }

  lemma MoveStaysWellFormed(tree: Tree, src: RelPath, dst: RelPath)
    requires WellFormed(tree) && Vacant(tree, dst) && Apart(src, dst) && src in tree
    requires dst != [] && Parent(dst) in tree && tree[Parent(dst)].Folder?
    ensures WellFormed(Moved(tree, src, dst))
  {
    var after := Moved(tree, src, dst);
    forall p | p in after && p != [] ensures Parent(p) in after && after[Parent(p)].Folder? {
      MovedLookup(tree, src, dst, p);
      MovedLookup(tree, src, dst, Parent(p));
      if AtOrBelow(dst, p) && p != dst {
        InnerImage(src, dst, p);
      } else if p == dst {
        BelowParent(src, dst);
      } else {
        BelowParent(src, p);
        BelowParent(dst, p);
      }
    }
  }

  /** Where an entry sits after a move. */
  function Carried(src: RelPath, dst: RelPath): RelPath -> RelPath {
    (q: RelPath) => if AtOrBelow(src, q) then Image(src, dst, q) else q
  }

  lemma CarriedFile(tree: Tree, src: RelPath, dst: RelPath, q: RelPath)
    requires Vacant(tree, dst) && Apart(src, dst) && src != [] && dst != [] && Name(src) == Name(dst) && q in tree
    ensures var p := Carried(src, dst)(q);
            && Counts(Moved(tree, src, dst), p) == Counts(tree, q)
            && Length(Moved(tree, src, dst), p) == Length(tree, q)
            && Origin(tree, src, dst, p) == q && !AtOrBelow(src, p)
  {
    var p := Carried(src, dst)(q);
    MovedLookup(tree, src, dst, p);
    NeverBoth(src, dst, p);
    if AtOrBelow(src, q) {
      ImageBack(src, dst, q);
      if p != dst {
        InnerImage(src, dst, p);
      }
    }
  }

  lemma EveryMovedFile(tree: Tree, src: RelPath, dst: RelPath, p: RelPath)
    requires Vacant(tree, dst) && Apart(src, dst) && p in Moved(tree, src, dst)
    ensures Origin(tree, src, dst, p) in tree && Carried(src, dst)(Origin(tree, src, dst, p)) == p
  {
    MovedLookup(tree, src, dst, p);
    if AtOrBelow(dst, p) {
      ImageBack(dst, src, p);
    }
  }

  /** A move leaves the usage of the account as it was. */
  lemma MoveKeepsUsage(tree: Tree, src: RelPath, dst: RelPath)
    requires Vacant(tree, dst) && Apart(src, dst) && src != [] && dst != [] && Name(src) == Name(dst)
    ensures BytesUnder(Moved(tree, src, dst), []) == BytesUnder(tree, [])
  {
    var after := Moved(tree, src, dst);
    UserFiles(tree);
    UserFiles(after);
    var olds, news := FilesUnder(tree, []), FilesUnder(after, []);
    var carry := Carried(src, dst);
    forall q | q in olds ensures carry(q) in news && Length(after, carry(q)) == Length(tree, q) {
      CarriedFile(tree, src, dst, q);
    }
    forall p | p in news ensures exists q :: q in olds && carry(q) == p {
      EveryMovedFile(tree, src, dst, p);
      CarriedFile(tree, src, dst, Origin(tree, src, dst, p));
      assert Origin(tree, src, dst, p) in olds;
    }
    forall q, q' | q in olds && q' in olds && carry(q) == carry(q') ensures q == q' {
      CarriedFile(tree, src, dst, q);
      CarriedFile(tree, src, dst, q');
    }
    SumRenamed(LengthsOf(tree, olds), LengthsOf(after, news), carry);
  }

  // ------------------------------------------------------------ copies that break off

  /** What a copy that broke off left of one source entry: its copy, or the beginning of it. */
  predicate PartOf(node: Node, copy: Node, now: nat) {
    || (node.File? && copy.File? && copy.content <= node.content && copy.modified == Some(now))
    || (node.Folder? && copy == Folder(Some(now)))
  }

  /** One path after a copy that broke off: outside the destination nothing changed, and what is inside is (part of) the
      image of a real source entry. */
  ghost predicate PartlyCopiedAt(tree: Tree, after: Tree, src: RelPath, dst: RelPath, now: nat, p: RelPath) {
    if AtOrBelow(dst, p) then
      p in after ==> Image(dst, src, p) in tree && Real(tree[Image(dst, src, p)]) && PartOf(tree[Image(dst, src, p)], after[p], now)
    else SameAt(after, tree, p)
  }

  lemma DoneOnly(tree: Tree, src: RelPath, dst: RelPath, now: nat, done: set<RelPath>, p: RelPath)
    requires Vacant(tree, dst) && Apart(src, dst) && src in tree && Real(tree[src]) && done <= CopySet(tree, src)
    ensures PartlyCopiedAt(tree, Copied(tree, src, dst, now, done), src, dst, now, p)
    ensures AtOrBelow(dst, p) ==> (p in Copied(tree, src, dst, now, done) <==> Image(dst, src, p) in done)
    ensures AtOrBelow(dst, p) && p in Copied(tree, src, dst, now, done) ==>
              Image(dst, src, p) in tree && Copied(tree, src, dst, now, done)[p] == CopyNode(tree[Image(dst, src, p)], now)
  {
    CopiedLookup(tree, src, dst, now, done, p);
    if AtOrBelow(dst, p) {
      CopySetMembers(tree, src, Image(dst, src, p));
    }
  }

  lemma BrokenOffAt(tree: Tree, after: Tree, src: RelPath, dst: RelPath, now: nat, done: set<RelPath>, torn: Option<(RelPath, nat)>, p: RelPath)
    requires Vacant(tree, dst) && Apart(src, dst) && src in tree && Real(tree[src])
    requires BrokenOff(tree, after, src, dst, now, done, torn)
    ensures PartlyCopiedAt(tree, after, src, dst, now, p)
  {
    DoneOnly(tree, src, dst, now, done, p);
    if torn.Some? {
      ImageBack(src, dst, torn.value.0);
    }
  }

  /** A copy that broke off: at every path, either nothing changed or there is part of the source's image. */
  lemma InterruptedIsPart(tree: Tree, after: Tree, src: RelPath, dst: RelPath, now: nat, p: RelPath)
    requires Vacant(tree, dst) && Apart(src, dst) && src in tree && Real(tree[src])
    requires Interrupted(tree, after, src, dst, now)
    ensures PartlyCopiedAt(tree, after, src, dst, now, p)
  {
    var done, torn :| BrokenOff(tree, after, src, dst, now, done, torn);
    BrokenOffAt(tree, after, src, dst, now, done, torn, p);
  }

  /** Which images a copy that broke off has made. */
  function MadeBy(done: set<RelPath>, torn: Option<(RelPath, nat)>): set<RelPath> {
    if torn.Some? then done + {torn.value.0} else done
  }

  lemma MadeAt(tree: Tree, after: Tree, src: RelPath, dst: RelPath, now: nat, done: set<RelPath>, torn: Option<(RelPath, nat)>, p: RelPath)
    requires Vacant(tree, dst) && Apart(src, dst) && src in tree && Real(tree[src]) && AtOrBelow(dst, p)
    requires BrokenOff(tree, after, src, dst, now, done, torn)
    ensures p in after <==> Image(dst, src, p) in MadeBy(done, torn)
    ensures p in after ==> Image(dst, src, p) in tree && (tree[Image(dst, src, p)].Folder? ==> after[p].Folder?)
  {
    DoneOnly(tree, src, dst, now, done, p);
    ImageBack(dst, src, p);
    if torn.Some? {
      ImageBack(src, dst, torn.value.0);
    }
  }

  lemma InterruptedStaysWellFormed(tree: Tree, after: Tree, src: RelPath, dst: RelPath, now: nat)
    requires WellFormed(tree) && Vacant(tree, dst) && Apart(src, dst) && src in tree && Real(tree[src])
    requires dst != [] && Parent(dst) in tree && tree[Parent(dst)].Folder?
    requires Interrupted(tree, after, src, dst, now)
    ensures WellFormed(after)
  {
    var done, torn :| BrokenOff(tree, after, src, dst, now, done, torn);
    forall p | p in after && p != [] ensures Parent(p) in after && after[Parent(p)].Folder? {
      BrokenOffAt(tree, after, src, dst, now, done, torn, p);
      BrokenOffAt(tree, after, src, dst, now, done, torn, Parent(p));
      if AtOrBelow(dst, p) && p != dst {
        InnerImage(src, dst, p);
        MadeAt(tree, after, src, dst, now, done, torn, p);
        MadeAt(tree, after, src, dst, now, done, torn, Parent(p));
        InnerIsNotSource(src, dst, p);
        assert Enclosed(tree, src, MadeBy(done, torn));
      } else if p == dst {
        BelowParent(src, dst);
      } else {
        BelowParent(dst, p);
      }
    }
  }

  lemma InnerIsNotSource(src: RelPath, dst: RelPath, p: RelPath)
    requires AtOrBelow(dst, p) && p != dst
    ensures Image(dst, src, p) != src
  {
    assert p == dst + p[|dst|..];
  }

  /** Where the original of an entry is, for every entry. */
  function Originals(src: RelPath, dst: RelPath): RelPath -> RelPath {
    (p: RelPath) => if AtOrBelow(dst, p) then Image(dst, src, p) else p
  }

  /** A copy that broke off adds no more to the usage than the whole copy would have. */
  lemma InterruptedUsage(tree: Tree, after: Tree, src: RelPath, dst: RelPath, now: nat)
    requires Vacant(tree, dst) && Apart(src, dst) && src in tree && Real(tree[src])
    requires src != [] && dst != [] && Name(src) == Name(dst) && Interrupted(tree, after, src, dst, now)
    ensures BytesUnder(after, []) <= BytesUnder(tree, []) + TotalOf(tree, CountedIn(tree, CopySet(tree, src)))
  {
    UserFiles(tree);
    UserFiles(after);
    var olds := FilesUnder(tree, []);
    var copies := set p | p in FilesUnder(after, []) && AtOrBelow(dst, p);
    var rest := FilesUnder(after, []) - copies;
    SumDisjoint(LengthsOf(after, FilesUnder(after, [])), LengthsOf(after, rest), LengthsOf(after, copies));
    forall p | p in rest ensures p in olds && Length(after, p) == Length(tree, p) {
      InterruptedIsPart(tree, after, src, dst, now, p);
    }
    SumMonotone(LengthsOf(after, rest), LengthsOf(tree, olds));
    CopiesAreBounded(tree, after, src, dst, now, copies);
  }

  lemma CopiesAreBounded(tree: Tree, after: Tree, src: RelPath, dst: RelPath, now: nat, copies: set<RelPath>)
    requires Vacant(tree, dst) && Apart(src, dst) && src in tree && Real(tree[src])
    requires src != [] && dst != [] && Name(src) == Name(dst) && Interrupted(tree, after, src, dst, now)
    requires forall p :: p in copies ==> AtOrBelow(dst, p) && Counts(after, p)
    ensures TotalOf(after, copies) <= TotalOf(tree, CountedIn(tree, CopySet(tree, src)))
  {
    var originals := CountedIn(tree, CopySet(tree, src));
    var back := Originals(src, dst);
    forall p | p in copies ensures back(p) in originals && Length(after, p) <= Length(tree, back(p)) {
      InterruptedIsPart(tree, after, src, dst, now, p);
      ImageBack(dst, src, p);
      CopySetMembers(tree, src, back(p));
      if p == dst {
        assert Image(dst, src, p) == src;
      } else {
        InnerImage(src, dst, p);
      }
    }
    forall p, p' | p in copies && p' in copies && back(p) == back(p') ensures p == p' {
      ImageBack(dst, src, p);
      ImageBack(dst, src, p');
    }
    SumInjected(LengthsOf(after, copies), LengthsOf(tree, originals), back);
  }

  // ------------------------------------------------------------ the handler

  /** The bytes a copy request is checked with. */
  ghost function Incoming(tree: Tree, source: RelPath): nat
    requires source in tree
  {
    if tree[source].Folder? then Min(BytesUnder(tree, source), U64_MAX) else Length(tree, source)
  }

  /** The size a copy is checked with is what it adds to the usage: of a folder exactly, up to the largest 64-bit value, and of a
      file unless it is named like a partial upload. */
  lemma CheckedSizeIsGrowth(tree: Tree, src: RelPath, dst: RelPath, now: nat)
    requires WellFormed(tree) && Vacant(tree, dst) && Apart(src, dst) && src in tree && Real(tree[src])
    requires src != [] && dst != [] && Name(src) == Name(dst)
    ensures var before, after := BytesUnder(tree, []), BytesUnder(Copied(tree, src, dst, now, CopySet(tree, src)), []);
            && (tree[src].Folder? ==> Incoming(tree, src) == Min(after - before, U64_MAX))
            && (tree[src].File? ==> after - before == if IsStagingName(Name(src)) then 0 else Incoming(tree, src))
  {
    if tree[src].Folder? {
      FolderCopyGrowsByFolderSize(tree, src, dst, now);
    } else {
      FileGrowth(tree, src, dst, now);
    }
  }

  /** When the path checks let a request through. */
  predicate Transferable(tree: Tree, source: RelPath, folder: RelPath) {
    && source != [] && source in tree && Real(tree[source])
    && folder in tree && tree[folder].Folder?
    && !(tree[source].Folder? && AtOrBelow(source, folder))
    && folder + [Name(source)] !in tree
  }

  /** What fails during a transfer: the rename of a move, entries of a copy, or the audit record at the end. */
  datatype TransferFaults = TransferFaults(renameOk: bool, entries: RelPath -> CopyFault, auditOk: bool)

  /** What an answered transfer has done. */
  function Transferred(tree: Tree, source: RelPath, dst: RelPath, copy: bool, now: nat): Tree {
    if copy then Copied(tree, source, dst, now, CopySet(tree, source)) else Moved(tree, source, dst)
  }

  /** Afterwards the entry is at its destination; after a copy it is where it was as well. */
  lemma ArrivesAt(tree: Tree, src: RelPath, dst: RelPath, now: nat)
    requires Vacant(tree, dst) && Apart(src, dst) && src in tree && Real(tree[src])
    ensures dst in Transferred(tree, src, dst, true, now) && dst in Transferred(tree, src, dst, false, now)
    ensures src in Transferred(tree, src, dst, true, now) && src !in Transferred(tree, src, dst, false, now)
  {
    assert AtOrBelow(dst, dst) && AtOrBelow(src, src) && Image(dst, src, dst) == src;
    CopyIsExact(tree, src, dst, now, dst);
    CopyIsExact(tree, src, dst, now, src);
    MovedLookup(tree, src, dst, dst);
    MovedLookup(tree, src, dst, src);
  }

  /** How a transfer that was let through can end: it is done, or it fails and nothing changed, a copy broke off, or
      only the record of it is missing. */
  ghost predicate Ended(before: Tree, after: Tree, source: RelPath, dst: RelPath, copy: bool, f: TransferFaults, now: nat,
                        r: Result<RelPath, TransferError>) {
    && (r.Err? ==> r.error == Io)
    && (r.Ok? ==> r.value == dst && after == Transferred(before, source, dst, copy, now))
    && (r.Err? ==>
          || after == before
          || (!f.auditOk && after == Transferred(before, source, dst, copy, now))
          || (copy && Interrupted(before, after, source, dst, now)))
    && (f.renameOk && f.auditOk && (forall p :: f.entries(p) == NoFault) ==> r.Ok?)
  }

  /** `transfer_entry`, after both paths were parsed. A refused request changes nothing. One that is let through does the
      whole copy or move, or fails. */
  method TransferEntry(disk: Disk, source: RelPath, folder: RelPath, writable: bool, copy: bool,
                       fits: nat -> bool, f: TransferFaults, now: nat)
    returns (r: Result<RelPath, TransferError>)
    requires WellFormed(disk.tree)
    modifies disk
    ensures WellFormed(disk.tree)
    ensures var before := old(disk.tree);
            var allowed := writable && Transferable(before, source, folder) && (copy ==> fits(Incoming(before, source)));
            && (!allowed ==> r.Err? && r.error != Io && disk.tree == before)
            && (allowed ==>
                  var dst := folder + [Name(source)];
                  && Apart(source, dst) && Vacant(before, dst) && Ended(before, disk.tree, source, dst, copy, f, now, r)
                  && (r.Ok? ==> dst in disk.tree && (source in disk.tree <==> copy)))
  {
    if !writable { return Err(Forbidden); }
    if source == [] { return Err(BadRequest); }
    if source !in disk.tree { return Err(NotFound); }
    if !Real(disk.tree[source]) { return Err(BadRequest); }
    if folder !in disk.tree { return Err(NotFound); }
    if !disk.tree[folder].Folder? { return Err(BadRequest); }
    var dst := folder + [Name(source)];
    if dst == source { return Err(Conflict); }
    if disk.tree[source].Folder? && AtOrBelow(source, folder) { return Err(BadRequest); }
    if dst in disk.tree { return Err(Conflict); }
    GuardsKeepApart(disk.tree, source, folder);
    if copy {
      var incoming := SizeOf(disk.tree, source);
      if !fits(incoming) { return Err(QuotaExceeded); }
    }
    assert Parent(dst) == folder;
    ArrivesAt(disk.tree, source, dst, now);
    r := CarryOut(disk, source, dst, copy, f, now);
  }

  /** The part of it after the checks. */
  method CarryOut(disk: Disk, source: RelPath, dst: RelPath, copy: bool, f: TransferFaults, now: nat)
    returns (r: Result<RelPath, TransferError>)
    requires WellFormed(disk.tree) && Apart(source, dst) && Vacant(disk.tree, dst) && source in disk.tree && Real(disk.tree[source])
    requires dst != [] && Parent(dst) in disk.tree && disk.tree[Parent(dst)].Folder?
    modifies disk
    ensures WellFormed(disk.tree) && Ended(old(disk.tree), disk.tree, source, dst, copy, f, now, r)
  {
    ghost var before := disk.tree;
    if copy {
      CopyStaysWellFormed(before, source, dst, now);
      var copied := CopyEntry(disk, source, dst, f.entries, now);
      if !copied {
        if Interrupted(before, disk.tree, source, dst, now) {
          InterruptedStaysWellFormed(before, disk.tree, source, dst, now);
        }
        return Err(Io);
      }
    } else {
      if !f.renameOk { return Err(Io); }
      MoveStaysWellFormed(before, source, dst);
      disk.tree := Moved(disk.tree, source, dst);
    }
    if !f.auditOk { return Err(Io); }
    return Ok(dst);
  }

  /** The size a copy is checked with: `folder_size` of a folder, the length of a file. */
  method SizeOf(tree: Tree, source: RelPath) returns (incoming: nat)
    requires WellFormed(tree) && source in tree && Real(tree[source])
    ensures incoming == Incoming(tree, source)
  {
    if tree[source].Folder? {
      var stats := TreeStats(tree, source);
      incoming := stats.value.0;
    } else {
      incoming := |tree[source].content|;
    }
  }

  /** `copy_entry`: one file, or a folder with the worklist loop. */
  method CopyEntry(disk: Disk, src: RelPath, dst: RelPath, faults: RelPath -> CopyFault, now: nat) returns (ok: bool)
    requires WellFormed(disk.tree) && Vacant(disk.tree, dst) && Apart(src, dst)
    requires src in disk.tree && Real(disk.tree[src])
    modifies disk
    ensures ok ==> disk.tree == Copied(old(disk.tree), src, dst, now, CopySet(old(disk.tree), src))
    ensures !ok ==> disk.tree == old(disk.tree) || Interrupted(old(disk.tree), disk.tree, src, dst, now)
    ensures (forall p :: faults(p) == NoFault) ==> ok
  {
    if disk.tree[src].File? {
      CopySetOfFile(disk.tree, src);
      assert Image(src, dst, src) == dst;
      NothingCopied(disk.tree, src, dst, now);
      if faults(src).CopyFails? {
        if faults(src).left.Some? {
          var n := Min(faults(src).left.value, |disk.tree[src].content|);
          FileTornAtOnce(disk.tree, src, dst, now, n);
          disk.tree := disk.tree[dst := File(disk.tree[src].content[..n], Some(now))];
        }
        return false;
      }
      CopiedPlusOne(disk.tree, src, dst, now, {}, src);
      assert {} + {src} == {src};
      disk.tree := disk.tree[dst := CopyNode(disk.tree[src], now)];
      ok := true;
    } else {
      ok := disk.CopyFolder(src, dst, now, faults);
    }
  }

  lemma NothingCopied(tree: Tree, src: RelPath, dst: RelPath, now: nat)
    ensures Copied(tree, src, dst, now, {}) == tree
  {
  }

  lemma FileTornAtOnce(tree: Tree, src: RelPath, dst: RelPath, now: nat, n: nat)
    requires src in tree && tree[src].File? && n <= |tree[src].content|
    ensures Interrupted(tree, tree[dst := File(tree[src].content[..n], Some(now))], src, dst, now)
  {
    NothingCopied(tree, src, dst, now);
    assert Image(src, dst, src) == dst && AtOrBelow(src, src);
    assert BrokenOff(tree, tree[dst := File(tree[src].content[..n], Some(now))], src, dst, now, {}, Some((src, n)));
  }

  lemma CopySetOfFile(tree: Tree, src: RelPath)
    requires WellFormed(tree) && src in tree && tree[src].File?
    ensures CopySet(tree, src) == {src}
  {
    forall q | q in CopySet(tree, src) ensures q == src {
      CopySetMembers(tree, src, q);
      if Below(src, q) {
        FileHasNothingBelow(tree, src, q);
      }
    }
  }
}
