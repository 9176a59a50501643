/** Copying and moving inside an account's tree (server/src/handlers/files.rs), and what a copy
    adds to the statistics its quota check was based on. */
module CopyTree {
  import opened Prelude
  import opened Paths
  import opened StagingNames
  import opened FileTree
  import opened StorageStats
  import opened Sums

  /** Neither path lies inside the other. */
  predicate Apart(src: RelPath, dst: RelPath) {
    !AtOrBelow(src, dst) && !AtOrBelow(dst, src)
  }

  /** The path under `dst` that corresponds to a path under `src`. */
  function Image(src: RelPath, dst: RelPath, q: RelPath): RelPath
    requires AtOrBelow(src, q)
  {
    dst + q[|src|..]
  }

  lemma ImageBack(src: RelPath, dst: RelPath, q: RelPath)
    requires AtOrBelow(src, q)
    ensures AtOrBelow(dst, Image(src, dst, q)) && Image(dst, src, Image(src, dst, q)) == q
  {
    assert q == src + q[|src|..];
  }

  function CopyNode(node: Node, now: nat): Node {
    match node
    case File(content, _) => File(content, Some(now))
    case Folder(_) => Folder(Some(now))
    case other => other
  }

  /** The tree after the given entries of `src` were copied to `dst`. */
  function Copied(tree: Tree, src: RelPath, dst: RelPath, now: nat, done: set<RelPath>): Tree {
    tree + map p | p in Images(src, dst, done) && Image(dst, src, p) in tree :: CopyNode(tree[Image(dst, src, p)], now)
  }

  function Images(src: RelPath, dst: RelPath, done: set<RelPath>): (r: set<RelPath>)
    ensures forall p :: p in r ==> AtOrBelow(dst, p)
  {
    set q | q in done && AtOrBelow(src, q) :: Image(src, dst, q)
  }

  /** What a copy has to produce: the source itself and every real entry below it. */
  function CopySet(tree: Tree, src: RelPath): set<RelPath> {
    ShownSet(tree, src, EVERYTHING) + {src}
  }

  /** Nothing is at or below the destination yet. */
  predicate Vacant(tree: Tree, dst: RelPath) {
    forall p :: p in tree ==> !AtOrBelow(dst, p)
  }

  lemma AbsentIsVacant(tree: Tree, dst: RelPath)
    requires WellFormed(tree) && dst !in tree
    ensures Vacant(tree, dst)
  {
    forall p | p in tree ensures !AtOrBelow(dst, p) {
      NothingBelowAbsent(tree, dst, p);
    }
  }

  /** The checks of `transfer_entry` keep source and destination apart. */
  lemma GuardsKeepApart(tree: Tree, source: RelPath, folder: RelPath)
    requires WellFormed(tree) && source != [] && source in tree
    requires folder in tree && tree[folder].Folder?
    requires folder + [Name(source)] !in tree && folder + [Name(source)] != source
    requires tree[source].Folder? ==> !AtOrBelow(source, folder)
    ensures Apart(source, folder + [Name(source)]) && Vacant(tree, folder + [Name(source)])
  {
    var dst := folder + [Name(source)];
    AbsentIsVacant(tree, dst);
    if AtOrBelow(source, dst) {
      assert |source| < |dst|;
      assert folder[..|source|] == dst[..|source|] == source;
      FolderAbove(tree, source, folder);
    }
  }

  /** What encloses a folder is a folder. */
  lemma {:induction false} FolderAbove(tree: Tree, above: RelPath, p: RelPath)
    requires WellFormed(tree) && p in tree && tree[p].Folder? && AtOrBelow(above, p)
    ensures above in tree && tree[above].Folder?
    decreases |p|
  {
    if |above| < |p| {
      assert Parent(p)[..|above|] == above;
      FolderAbove(tree, above, Parent(p));
    } else {
      assert p[..|p|] == p;
    }
  }

  lemma CopiedLookup(tree: Tree, src: RelPath, dst: RelPath, now: nat, done: set<RelPath>, p: RelPath)
    requires Vacant(tree, dst)
    ensures !AtOrBelow(dst, p) ==>
              (p in Copied(tree, src, dst, now, done) <==> p in tree)
              && (p in tree ==> Copied(tree, src, dst, now, done)[p] == tree[p])
    ensures AtOrBelow(dst, p) ==>
              (p in Copied(tree, src, dst, now, done) <==> Image(dst, src, p) in done && Image(dst, src, p) in tree)
  {
    if AtOrBelow(dst, p) {
      ImageBack(dst, src, p);
      assert p in Images(src, dst, done) <==> Image(dst, src, p) in done by {
        if p in Images(src, dst, done) {
          var q :| q in done && AtOrBelow(src, q) && Image(src, dst, q) == p;
          ImageBack(src, dst, q);
        }
      }
    }
  }

  lemma CopiedPlusOne(tree: Tree, src: RelPath, dst: RelPath, now: nat, done: set<RelPath>, q: RelPath)
    requires Vacant(tree, dst) && AtOrBelow(src, q) && q in tree
    ensures Copied(tree, src, dst, now, done + {q})
         == Copied(tree, src, dst, now, done)[Image(src, dst, q) := CopyNode(tree[q], now)]
  {
    var before, after := Copied(tree, src, dst, now, done), Copied(tree, src, dst, now, done + {q});
    ImageBack(src, dst, q);
    forall p ensures p in after <==> p in before || p == Image(src, dst, q) {
      CopiedLookup(tree, src, dst, now, done, p);
      CopiedLookup(tree, src, dst, now, done + {q}, p);
      if AtOrBelow(dst, p) && Image(dst, src, p) == q {
        ImageBack(dst, src, p);
      }
    }
  }

  /** Copying does not change what the source folders list. */
  lemma SourceEntriesStay(tree: Tree, src: RelPath, dst: RelPath, now: nat, done: set<RelPath>, d: RelPath)
    requires WellFormed(tree) && Vacant(tree, dst) && Apart(src, dst) && AtOrBelow(src, d)
    ensures Entries(Copied(tree, src, dst, now, done), d) == Entries(tree, d)
  {
    forall p | p != [] && Parent(p) == d
      ensures p in Copied(tree, src, dst, now, done) <==> p in tree
    {
      CopiedLookup(tree, src, dst, now, done, p);
      assert p[..|src|] == d[..|src|];
      NeverBoth(src, dst, p);
    }
  }

  /** No path lies below two paths that lie apart. */
  lemma NeverBoth(a: RelPath, b: RelPath, p: RelPath)
    requires Apart(a, b)
    ensures !(AtOrBelow(a, p) && AtOrBelow(b, p))
  {
    if |a| <= |b| <= |p| {
      assert p[..|b|][..|a|] == p[..|a|];
    } else if |b| < |a| <= |p| {
      assert p[..|a|][..|b|] == p[..|b|];
    }
  }

  lemma SourceNodesStay(tree: Tree, src: RelPath, dst: RelPath, now: nat, done: set<RelPath>, q: RelPath)
    requires Vacant(tree, dst) && Apart(src, dst) && AtOrBelow(src, q) && q in tree
    ensures q in Copied(tree, src, dst, now, done) && Copied(tree, src, dst, now, done)[q] == tree[q]
  {
    CopiedLookup(tree, src, dst, now, done, q);
    NeverBoth(src, dst, q);
  }

  // ------------------------------------------------------------ the handlers

  datatype TransferError = BadRequest | Forbidden | NotFound | Conflict | QuotaExceeded | Io

  /** What goes wrong with one source entry: its folder cannot be read, or its copy cannot be made; a file copy that
      fails may leave the beginning of the file. */
  datatype CopyFault = NoFault | ReadFails | CopyFails(left: Option<nat>)

  // ------------------------------------------------------------ copies that break off

  /** The copied entries come with everything that encloses them. */
  ghost predicate Enclosed(tree: Tree, src: RelPath, done: set<RelPath>) {
    forall p :: p in done && p != src ==> p != [] && Parent(p) in done && Parent(p) in tree && tree[Parent(p)].Folder?
  }

  /** A tree in which a copy broke off: some of the source was copied, and perhaps one file only in part. */
  ghost predicate BrokenOff(tree: Tree, after: Tree, src: RelPath, dst: RelPath, now: nat, done: set<RelPath>, torn: Option<(RelPath, nat)>) {
    && done <= CopySet(tree, src) && Enclosed(tree, src, done)
    && match torn
       case None => after == Copied(tree, src, dst, now, done)
       case Some((q, n)) =>
         && q in CopySet(tree, src) && q in tree && tree[q].File? && n <= |tree[q].content| && AtOrBelow(src, q)
         && Enclosed(tree, src, done + {q})
         && after == Copied(tree, src, dst, now, done)[Image(src, dst, q) := File(tree[q].content[..n], Some(now))]
  }

  ghost predicate Interrupted(tree: Tree, after: Tree, src: RelPath, dst: RelPath, now: nat) {
    exists done, torn :: BrokenOff(tree, after, src, dst, now, done, torn)
  }

  lemma SeenIsEnclosed(tree: Tree, src: RelPath, stack: seq<RelPath>, read: set<RelPath>, pending: set<RelPath>)
    requires Walking(tree, src, EVERYTHING, stack, read, pending)
    ensures Enclosed(tree, src, Seen(tree, src, EVERYTHING, read, pending) + {src})
    ensures forall p :: p in pending ==> Parent(p) in Seen(tree, src, EVERYTHING, read, pending) + {src} && tree[Parent(p)].Folder?
  {
    var done := Seen(tree, src, EVERYTHING, read, pending) + {src};
    forall d | d in read ensures d in done && d in tree && tree[d].Folder? {
      assert ToRead(tree, src, EVERYTHING, d) && Discovered(src, read, d);
    }
    forall p | p in done && p != src ensures p != [] && Parent(p) in done {
      assert Parent(p) in read;
    }
  }

  lemma CopyBreaksOff(tree: Tree, current: Tree, src: RelPath, dst: RelPath, now: nat,
                      stack: seq<(RelPath, RelPath)>, read: set<RelPath>, pending: set<RelPath>)
    requires Copying(tree, current, src, dst, now, stack, read, pending)
    ensures Interrupted(tree, current, src, dst, now)
  {
    var seen := Seen(tree, src, EVERYTHING, read, pending);
    SeenIsEnclosed(tree, src, Firsts(stack), read, pending);
    assert seen + {src} <= CopySet(tree, src);
    assert BrokenOff(tree, current, src, dst, now, seen + {src}, None);
  }

  lemma FileBreaksOff(tree: Tree, current: Tree, src: RelPath, dst: RelPath, now: nat,
                      stack: seq<(RelPath, RelPath)>, read: set<RelPath>, pending: set<RelPath>, q: RelPath, n: nat)
    requires Copying(tree, current, src, dst, now, stack, read, pending) && q in pending && q in tree && AtOrBelow(src, q)
    requires tree[q].File? && n <= |tree[q].content|
    ensures Interrupted(tree, current[Image(src, dst, q) := File(tree[q].content[..n], Some(now))], src, dst, now)
  {
    var seen := Seen(tree, src, EVERYTHING, read, pending);
    SeenIsEnclosed(tree, src, Firsts(stack), read, pending);
    WalkTakes(tree, src, EVERYTHING, Firsts(stack), read, pending, q);
    assert EVERYTHING(q);
    assert seen + {src} <= CopySet(tree, src) && q in CopySet(tree, src);
    assert BrokenOff(tree, current[Image(src, dst, q) := File(tree[q].content[..n], Some(now))], src, dst, now, seen + {src}, Some((q, n)));
  }

  function Firsts(stack: seq<(RelPath, RelPath)>): seq<RelPath> {
    seq(|stack|, i requires 0 <= i < |stack| => stack[i].0)
  }

  /** The destination of every directory on the stack is its image. */
  predicate PairsOk(src: RelPath, dst: RelPath, stack: seq<(RelPath, RelPath)>) {
    forall i :: 0 <= i < |stack| ==> AtOrBelow(src, stack[i].0) && stack[i].1 == Image(src, dst, stack[i].0)
  }

  /** Where the copy loop stands: the walk over the source, and the tree with what was seen copied. */
  ghost predicate Copying(tree: Tree, current: Tree, src: RelPath, dst: RelPath, now: nat,
                          stack: seq<(RelPath, RelPath)>, read: set<RelPath>, pending: set<RelPath>) {
    && Walking(tree, src, EVERYTHING, Firsts(stack), read, pending)
    && PairsOk(src, dst, stack)
    && current == Copied(tree, src, dst, now, Seen(tree, src, EVERYTHING, read, pending) + {src})
  }

  lemma CopyStarts(tree: Tree, src: RelPath, dst: RelPath, now: nat)
    requires Vacant(tree, dst) && src in tree && tree[src].Folder?
    ensures Copying(tree, tree[dst := Folder(Some(now))], src, dst, now, [(src, dst)], {}, {})
  {
    WalkStarts(tree, src, EVERYTHING);
    assert Firsts([(src, dst)]) == [src];
    CopiedPlusOne(tree, src, dst, now, {}, src);
    assert Copied(tree, src, dst, now, {}) == tree;
    assert Image(src, dst, src) == dst;
    assert {} + {src} == {src};
  }

  lemma PopPairs(tree: Tree, src: RelPath, stack: seq<(RelPath, RelPath)>, read: set<RelPath>)
    requires Walking(tree, src, EVERYTHING, Firsts(stack), read, {}) && stack != []
    ensures var d := stack[|stack| - 1].0;
            && ToRead(tree, src, EVERYTHING, d) && d !in read
            && Walking(tree, src, EVERYTHING, Firsts(stack[..|stack| - 1]), read + {d}, Entries(tree, d))
            && Seen(tree, src, EVERYTHING, read + {d}, Entries(tree, d)) == Seen(tree, src, EVERYTHING, read, {})
  {
    var n := |stack| - 1;
    assert Firsts(stack)[n] == stack[n].0;
    assert Firsts(stack)[..n] == Firsts(stack[..n]);
    WalkPops(tree, src, EVERYTHING, Firsts(stack), read);
    PopSeesNothing(tree, src, EVERYTHING, Firsts(stack), read, stack[n].0);
  }

  lemma FewerPairs(src: RelPath, dst: RelPath, stack: seq<(RelPath, RelPath)>)
    requires PairsOk(src, dst, stack) && stack != []
    ensures PairsOk(src, dst, stack[..|stack| - 1])
    ensures AtOrBelow(src, stack[|stack| - 1].0)
  {
  }

  lemma CopyPops(tree: Tree, current: Tree, src: RelPath, dst: RelPath, now: nat,
                 stack: seq<(RelPath, RelPath)>, read: set<RelPath>)
    requires Copying(tree, current, src, dst, now, stack, read, {}) && stack != []
    ensures var d := stack[|stack| - 1].0;
            && Copying(tree, current, src, dst, now, stack[..|stack| - 1], read + {d}, Entries(tree, d))
            && |ToReadSet(tree, src, EVERYTHING) - (read + {d})| < |ToReadSet(tree, src, EVERYTHING) - read|
  {
    FewerPairs(src, dst, stack);
    PopPairs(tree, src, stack, read);
    WalkProgress(tree, src, EVERYTHING, read, stack[|stack| - 1].0);
  }

  lemma CopyListsSource(tree: Tree, current: Tree, src: RelPath, dst: RelPath, now: nat,
                        stack: seq<(RelPath, RelPath)>, read: set<RelPath>)
    requires WellFormed(tree) && Vacant(tree, dst) && Apart(src, dst)
    requires Copying(tree, current, src, dst, now, stack, read, {}) && stack != []
    ensures Entries(current, stack[|stack| - 1].0) == Entries(tree, stack[|stack| - 1].0)
  {
    FewerPairs(src, dst, stack);
    SourceEntriesStay(tree, src, dst, now, Seen(tree, src, EVERYTHING, read, {}) + {src}, stack[|stack| - 1].0);
  }

  lemma TakePair(tree: Tree, src: RelPath, dst: RelPath, stack: seq<(RelPath, RelPath)>,
                 read: set<RelPath>, pending: set<RelPath>, q: RelPath)
    requires Walking(tree, src, EVERYTHING, Firsts(stack), read, pending) && PairsOk(src, dst, stack) && q in pending
    ensures q in tree && AtOrBelow(src, q)
    ensures var stack' := if tree[q].Folder? then stack + [(q, Image(src, dst, q))] else stack;
            Walking(tree, src, EVERYTHING, Firsts(stack'), read, pending - {q}) && PairsOk(src, dst, stack')
    ensures Seen(tree, src, EVERYTHING, read, pending - {q})
         == Seen(tree, src, EVERYTHING, read, pending) + (if Real(tree[q]) then {q} else {})
  {
    WalkTakes(tree, src, EVERYTHING, Firsts(stack), read, pending, q);
    assert EVERYTHING(q);
    assert Firsts(stack + [(q, Image(src, dst, q))]) == Firsts(stack) + [q];
  }

  lemma TakeNode(tree: Tree, src: RelPath, dst: RelPath, now: nat, seen: set<RelPath>, q: RelPath)
    requires Vacant(tree, dst) && Apart(src, dst) && AtOrBelow(src, q) && q in tree
    ensures q in Copied(tree, src, dst, now, seen + {src}) && Copied(tree, src, dst, now, seen + {src})[q] == tree[q]
    ensures Copied(tree, src, dst, now, (seen + {q}) + {src})
         == Copied(tree, src, dst, now, seen + {src})[Image(src, dst, q) := CopyNode(tree[q], now)]
  {
    SourceNodesStay(tree, src, dst, now, seen + {src}, q);
    CopiedPlusOne(tree, src, dst, now, seen + {src}, q);
    assert (seen + {q}) + {src} == (seen + {src}) + {q};
  }

  lemma CopyTakes(tree: Tree, current: Tree, src: RelPath, dst: RelPath, now: nat,
                  stack: seq<(RelPath, RelPath)>, read: set<RelPath>, pending: set<RelPath>, q: RelPath)
    requires Vacant(tree, dst) && Apart(src, dst)
    requires Copying(tree, current, src, dst, now, stack, read, pending) && q in pending
    ensures AtOrBelow(src, q) && q in current && q in tree && current[q] == tree[q]
    ensures var image := Image(src, dst, q);
            var stack' := if tree[q].Folder? then stack + [(q, image)] else stack;
            var current' := if Real(tree[q]) then current[image := CopyNode(tree[q], now)] else current;
            Copying(tree, current', src, dst, now, stack', read, pending - {q})
  {
    var seen := Seen(tree, src, EVERYTHING, read, pending);
    TakePair(tree, src, dst, stack, read, pending, q);
    TakeNode(tree, src, dst, now, seen, q);
    if !Real(tree[q]) {
      assert seen + {} == seen;
    }
  }

  lemma CopyEnds(tree: Tree, current: Tree, src: RelPath, dst: RelPath, now: nat, read: set<RelPath>)
    requires WellFormed(tree) && Copying(tree, current, src, dst, now, [], read, {})
    ensures current == Copied(tree, src, dst, now, CopySet(tree, src))
  {
    assert Firsts([]) == [];
    WalkEnds(tree, src, EVERYTHING, read);
  }

  class Disk {
    var tree: Tree

    constructor (tree: Tree)
      ensures this.tree == tree
    {
      this.tree := tree;
    }

    /** The loop of `copy_entry` for a folder. It reads the very tree it is writing to, and stops at the first fault. */
    method CopyFolder(src: RelPath, dst: RelPath, now: nat, faults: RelPath -> CopyFault) returns (ok: bool)
      requires WellFormed(tree) && Vacant(tree, dst) && Apart(src, dst) && src in tree && tree[src].Folder?
      modifies this
      ensures ok ==> tree == Copied(old(tree), src, dst, now, CopySet(old(tree), src))
      ensures !ok ==> tree == old(tree) || Interrupted(old(tree), tree, src, dst, now)
      ensures (forall p :: faults(p) == NoFault) ==> ok
    {
      ghost var before := tree;
      if faults(src).CopyFails? {
        return false;
      }
      CopyStarts(before, src, dst, now);
      tree := tree[dst := Folder(Some(now))];
      var stack := [(src, dst)];
      ghost var read: set<RelPath> := {};
      while stack != []
        invariant Copying(before, tree, src, dst, now, stack, read, {})
        decreases |ToReadSet(before, src, EVERYTHING) - read|
      {
        var (srcDir, dstDir) := stack[|stack| - 1];
        if faults(srcDir) == ReadFails {
          CopyBreaksOff(before, tree, src, dst, now, stack, read, {});
          return false;
        }
        CopyListsSource(before, tree, src, dst, now, stack, read);
        CopyPops(before, tree, src, dst, now, stack, read);
        stack := stack[..|stack| - 1];
        read := read + {srcDir};
        ok, stack := CopyEntries(src, dst, srcDir, dstDir, now, faults, stack, before, read);
        if !ok {
          return;
        }
      }
      CopyEnds(before, tree, src, dst, now, read);
      ok := true;
    }

    method CopyEntries(src: RelPath, dst: RelPath, srcDir: RelPath, dstDir: RelPath, now: nat, faults: RelPath -> CopyFault,
                       left: seq<(RelPath, RelPath)>, ghost before: Tree, ghost read: set<RelPath>)
      returns (ok: bool, stack: seq<(RelPath, RelPath)>)
      requires Vacant(before, dst) && Apart(src, dst)
      requires AtOrBelow(src, srcDir) && dstDir == Image(src, dst, srcDir)
      requires Entries(tree, srcDir) == Entries(before, srcDir)
      requires Copying(before, tree, src, dst, now, left, read, Entries(before, srcDir))
      modifies this
      ensures ok ==> Copying(before, tree, src, dst, now, stack, read, {})
      ensures !ok ==> Interrupted(before, tree, src, dst, now)
      ensures (forall p :: faults(p) == NoFault) ==> ok
    {
      ok, stack := true, left;
      var pending := Entries(tree, srcDir);
      while pending != {}
        invariant ok && pending <= Entries(before, srcDir)
        invariant Copying(before, tree, src, dst, now, stack, read, pending)
        decreases pending
      {
        var entry :| entry in pending;
        ImageOfEntry(src, dst, srcDir, entry);
        ok, stack := CopyOne(src, dst, entry, dstDir + [Name(entry)], now, faults(entry), stack, before, read, pending);
        if !ok {
          return;
        }
        pending := pending - {entry};
      }
    }

    /** One directory entry: a folder is created and pushed, a file copied, anything else skipped. */
    method CopyOne(src: RelPath, dst: RelPath, childSrc: RelPath, childDst: RelPath, now: nat, fault: CopyFault,
                   left: seq<(RelPath, RelPath)>, ghost before: Tree, ghost read: set<RelPath>, ghost pending: set<RelPath>)
      returns (ok: bool, stack: seq<(RelPath, RelPath)>)
      requires Vacant(before, dst) && Apart(src, dst)
      requires Copying(before, tree, src, dst, now, left, read, pending) && childSrc in pending
      requires AtOrBelow(src, childSrc) && childDst == Image(src, dst, childSrc)
      modifies this
      ensures ok ==> Copying(before, tree, src, dst, now, stack, read, pending - {childSrc})
      ensures !ok ==> Interrupted(before, tree, src, dst, now)
      ensures fault == NoFault ==> ok
    {
      CopyTakes(before, tree, src, dst, now, left, read, pending, childSrc);
      stack := left;
      if fault.CopyFails? && Real(tree[childSrc]) {
        CopyBreaksOff(before, tree, src, dst, now, left, read, pending);
        if tree[childSrc].File? && fault.left.Some? {
          var n := Min(fault.left.value, |tree[childSrc].content|);
          FileBreaksOff(before, tree, src, dst, now, left, read, pending, childSrc, n);
          tree := tree[childDst := File(tree[childSrc].content[..n], Some(now))];
        }
        return false, stack;
      }
      ok := true;
      match tree[childSrc]
      case Folder(_) =>
        tree := tree[childDst := Folder(Some(now))];
        stack := stack + [(childSrc, childDst)];
      case File(content, _) =>
        tree := tree[childDst := File(content, Some(now))];
      case _ =>
    }
  }

  lemma ImageOfEntry(src: RelPath, dst: RelPath, dir: RelPath, entry: RelPath)
    requires AtOrBelow(src, dir) && entry != [] && Parent(entry) == dir
    ensures AtOrBelow(src, entry) && Image(src, dst, entry) == Image(src, dst, dir) + [Name(entry)]
  {
    assert entry == dir + [Name(entry)];
    assert entry[..|src|] == dir[..|src|];
  }
}
