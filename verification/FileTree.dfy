/** A directory tree, and the worklist walk that several handlers share.

    A tree maps every path below a root to what is there. The walk pops a directory from a stack,
    reads its entries in any order, and pushes the directories among them. */
module FileTree {
  import opened Prelude
  import opened Paths

  datatype Node =
    | File(content: Bytes, modified: Option<nat>)
    | Folder(modified: Option<nat>)
    | Link
    | Special

  type Tree = map<RelPath, Node>

  function Parent(p: RelPath): RelPath
    requires p != []
  {
    p[..|p| - 1]
  }

  function Name(p: RelPath): string
    requires p != []
  {
    p[|p| - 1]
  }

  /** Every entry sits in a folder. */
  ghost predicate WellFormed(tree: Tree) {
    forall p :: p in tree && p != [] ==> Parent(p) in tree && tree[Parent(p)].Folder?
  }

  /** What `read_dir` lists. */
  function Entries(tree: Tree, dir: RelPath): set<RelPath> {
    set p | p in tree && p != [] && Parent(p) == dir
  }

  predicate Below(start: RelPath, p: RelPath) {
    |start| < |p| && p[..|start|] == start
  }

  predicate AtOrBelow(start: RelPath, p: RelPath) {
    |start| <= |p| && p[..|start|] == start
  }

  lemma BelowParent(above: RelPath, p: RelPath)
    requires p != []
    ensures AtOrBelow(above, Parent(p)) ==> AtOrBelow(above, p)
  {
    if |above| < |p| {
      assert p[..|above|] == Parent(p)[..|above|];
    }
  }

  /** Nothing lies below a path that is not there. */
  lemma {:induction false} NothingBelowAbsent(tree: Tree, dst: RelPath, p: RelPath)
    requires WellFormed(tree) && dst !in tree && p in tree
    ensures !AtOrBelow(dst, p)
    decreases |p|
  {
    if AtOrBelow(dst, p) {
      assert p[..|p|] == p;
      assert |p| > |dst|;
      assert Parent(p)[..|dst|] == dst;
      NothingBelowAbsent(tree, dst, Parent(p));
    }
  }

  /** Which entries a walk considers at all; symbolic links and special files are never among them. */
  type Filter = RelPath -> bool

  predicate Real(node: Node) {
    node.File? || node.Folder?
  }

  predicate PassesAlong(keep: Filter, start: RelPath, p: RelPath) {
    forall i :: |start| < i <= |p| ==> keep(p[..i])
  }

  /** The entries a walk from `start` reports: real files and folders below it all of whose
      enclosing folders pass the filter. */
  predicate Shown(tree: Tree, start: RelPath, keep: Filter, p: RelPath) {
    p in tree && Real(tree[p]) && Below(start, p) && PassesAlong(keep, start, p)
  }

  function ShownSet(tree: Tree, start: RelPath, keep: Filter): set<RelPath> {
    set p | p in tree && Shown(tree, start, keep, p)
  }

  /** The directories a walk has to read. */
  predicate ToRead(tree: Tree, start: RelPath, keep: Filter, d: RelPath) {
    d in tree && tree[d].Folder? && (d == start || Shown(tree, start, keep, d))
  }

  function ToReadSet(tree: Tree, start: RelPath, keep: Filter): set<RelPath> {
    set d | d in tree && ToRead(tree, start, keep, d)
  }

  /** What a walk has reported when the folders in `read` were read and `pending` entries of the last one are still to come. */
  function Seen(tree: Tree, start: RelPath, keep: Filter, read: set<RelPath>, pending: set<RelPath>): set<RelPath> {
    set p | p in tree && Shown(tree, start, keep, p) && Parent(p) in read && p !in pending
  }

  predicate Discovered(start: RelPath, read: set<RelPath>, d: RelPath) {
    d == start || (d != [] && Parent(d) in read)
  }

  /** The invariant of the walk: every directory discovered so far was read, or is on the stack,
      or is among the pending entries; and no directory is on the stack twice or after it was read. */
  ghost predicate Walking(tree: Tree, start: RelPath, keep: Filter,
                          stack: seq<RelPath>, read: set<RelPath>, pending: set<RelPath>) {
    && AllFound(tree, start, keep, stack, read, pending)
    && (forall d :: d in stack ==> ToRead(tree, start, keep, d) && Discovered(start, read, d) && d !in read && d !in pending)
    && (forall i, j :: 0 <= i < j < |stack| ==> stack[i] != stack[j])
    && (forall d :: d in read ==> ToRead(tree, start, keep, d) && Discovered(start, read, d))
    && (forall p :: p in pending ==> p in tree && p != [] && Parent(p) in read && p !in read && Below(start, p))
  }

  ghost predicate AllFound(tree: Tree, start: RelPath, keep: Filter,
                           stack: seq<RelPath>, read: set<RelPath>, pending: set<RelPath>) {
    forall d :: ToRead(tree, start, keep, d) && Discovered(start, read, d) ==> d in read || d in stack || d in pending
  }

  lemma WalkStarts(tree: Tree, start: RelPath, keep: Filter)
    requires start in tree && tree[start].Folder?
    ensures Walking(tree, start, keep, [start], {}, {})
    ensures Seen(tree, start, keep, {}, {}) == {}
  {
  }

  /** An entry of a directory that is read is reported exactly when it is real and passes the filter. */
  lemma EntryShown(tree: Tree, start: RelPath, keep: Filter, p: RelPath)
    requires p in tree && p != [] && ToRead(tree, start, keep, Parent(p))
    ensures Below(start, p)
    ensures Shown(tree, start, keep, p) <==> Real(tree[p]) && keep(p)
  {
    var d := Parent(p);
    assert p[..|p|] == p;
    assert p[..|start|] == d[..|start|];
    forall i | |start| < i < |p| ensures keep(p[..i]) {
      assert p[..i] == d[..i];
    }
  }

  lemma EntriesAreNew(tree: Tree, start: RelPath, keep: Filter, stack: seq<RelPath>, read: set<RelPath>, d: RelPath)
    requires Walking(tree, start, keep, stack, read, {}) && d in stack
    ensures ToRead(tree, start, keep, d) && d !in read && Discovered(start, read, d)
    ensures forall p :: p in Entries(tree, d) ==> Below(start, p) && p !in read && p !in stack && p != d
  {
    forall p | p in Entries(tree, d) ensures Below(start, p) && p !in read && p !in stack && p != d {
      EntryShown(tree, start, keep, p);
    }
  }

  lemma WalkPops(tree: Tree, start: RelPath, keep: Filter, stack: seq<RelPath>, read: set<RelPath>)
    requires Walking(tree, start, keep, stack, read, {}) && stack != []
    ensures var d := stack[|stack| - 1];
            && ToRead(tree, start, keep, d) && d !in read
            && Walking(tree, start, keep, stack[..|stack| - 1], read + {d}, Entries(tree, d))
  {
    var n := |stack| - 1;
    EntriesAreNew(tree, start, keep, stack, read, stack[n]);
    PoppedStack(stack);
    FoundAfterPop(tree, start, keep, stack, read);
  }

  lemma PoppedStack(stack: seq<RelPath>)
    requires stack != [] && forall i, j :: 0 <= i < j < |stack| ==> stack[i] != stack[j]
    ensures var n := |stack| - 1;
            forall e :: e in stack[..n] <==> e in stack && e != stack[n]
  {
  }

  lemma FoundAfterPop(tree: Tree, start: RelPath, keep: Filter, stack: seq<RelPath>, read: set<RelPath>)
    requires AllFound(tree, start, keep, stack, read, {}) && stack != []
    ensures var d := stack[|stack| - 1];
            AllFound(tree, start, keep, stack[..|stack| - 1], read + {d}, Entries(tree, d))
  {
    var n := |stack| - 1;
    assert stack == stack[..n] + [stack[n]];
  }

  /** Popping a directory reports nothing yet. */
  lemma PopSeesNothing(tree: Tree, start: RelPath, keep: Filter, stack: seq<RelPath>, read: set<RelPath>, d: RelPath)
    requires Walking(tree, start, keep, stack, read, {}) && d in stack
    ensures Seen(tree, start, keep, read + {d}, Entries(tree, d)) == Seen(tree, start, keep, read, {})
  {
  }

  /** One entry is taken: a shown folder is pushed, anything else is not. */
  lemma WalkTakes(tree: Tree, start: RelPath, keep: Filter, stack: seq<RelPath>, read: set<RelPath>, pending: set<RelPath>, p: RelPath)
    requires Walking(tree, start, keep, stack, read, pending) && p in pending
    ensures var shown := Real(tree[p]) && keep(p);
            var stack' := if shown && tree[p].Folder? then stack + [p] else stack;
            && (Shown(tree, start, keep, p) <==> shown)
            && Walking(tree, start, keep, stack', read, pending - {p})
            && Seen(tree, start, keep, read, pending - {p})
               == Seen(tree, start, keep, read, pending) + (if shown then {p} else {})
            && p !in Seen(tree, start, keep, read, pending)
  {
    EntryShown(tree, start, keep, p);
  }

  /** Every directory is found: an unread one would have an unread parent. */
  lemma {:induction false} AllRead(tree: Tree, start: RelPath, keep: Filter, read: set<RelPath>, d: RelPath)
    requires WellFormed(tree) && Walking(tree, start, keep, [], read, {}) && ToRead(tree, start, keep, d)
    ensures d in read
    decreases |d|
  {
    if d != start {
      ShownParent(tree, start, keep, d);
      AllRead(tree, start, keep, read, Parent(d));
    }
  }

  lemma ShownParent(tree: Tree, start: RelPath, keep: Filter, p: RelPath)
    requires WellFormed(tree) && Shown(tree, start, keep, p)
    ensures p != [] && Parent(p) in tree && ToRead(tree, start, keep, Parent(p)) && keep(p)
  {
    var d := Parent(p);
    assert p[..|p|] == p;
    assert d[..|start|] == p[..|start|];
    if |d| > |start| {
      forall i | |start| < i <= |d| ensures keep(d[..i]) {
        assert d[..i] == p[..i];
      }
    }
  }

  /** A finished walk has reported exactly the shown entries. */
  lemma WalkEnds(tree: Tree, start: RelPath, keep: Filter, read: set<RelPath>)
    requires WellFormed(tree) && Walking(tree, start, keep, [], read, {})
    ensures Seen(tree, start, keep, read, {}) == ShownSet(tree, start, keep)
    ensures read <= ToReadSet(tree, start, keep)
  {
    forall p | p in tree && Shown(tree, start, keep, p) ensures Parent(p) in read {
      ShownParent(tree, start, keep, p);
      AllRead(tree, start, keep, read, Parent(p));
    }
  }

  /** Reading one more directory leaves fewer to read. */
  lemma WalkProgress(tree: Tree, start: RelPath, keep: Filter, read: set<RelPath>, d: RelPath)
    requires ToRead(tree, start, keep, d) && d !in read
    ensures |ToReadSet(tree, start, keep) - (read + {d})| < |ToReadSet(tree, start, keep) - read|
  {
    var rest := ToReadSet(tree, start, keep) - read;
    assert d in rest;
    assert ToReadSet(tree, start, keep) - (read + {d}) == rest - {d};
  }
}
