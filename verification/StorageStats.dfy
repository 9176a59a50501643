/** Storage statistics (server/src/handlers/storage.rs): the plain totals of `tree_stats`. */
module StorageStats {
  import opened Prelude
  import opened Paths
  import opened StagingNames
  import opened FileTree
  import opened Sums

  /** Statistics walk through every real entry. */
  const EVERYTHING: Filter := (p: RelPath) => true

  /** A user file: a file that is not a partial upload. */
  predicate Counts(tree: Tree, p: RelPath) {
    p in tree && p != [] && tree[p].File? && !IsStagingName(Name(p))
  }

  function Length(tree: Tree, p: RelPath): nat {
    if p in tree && tree[p].File? then |tree[p].content| else 0
  }

  /** The user files among some entries. */
  function CountedIn(tree: Tree, seen: set<RelPath>): set<RelPath> {
    set p | p in seen && Counts(tree, p)
  }

  function LengthsOf(tree: Tree, files: set<RelPath>): map<RelPath, nat> {
    map p | p in files :: Length(tree, p)
  }

  ghost function TotalOf(tree: Tree, files: set<RelPath>): nat {
    Sum(LengthsOf(tree, files))
  }

  /** The user files below a folder. */
  function FilesUnder(tree: Tree, root: RelPath): set<RelPath> {
    CountedIn(tree, ShownSet(tree, root, EVERYTHING))
  }

  /** The bytes below a folder, without any bound. */
  ghost function BytesUnder(tree: Tree, root: RelPath): nat {
    TotalOf(tree, FilesUnder(tree, root))
  }

  lemma TotalPlusOne(tree: Tree, files: set<RelPath>, p: RelPath)
    requires p !in files
    ensures TotalOf(tree, files + {p}) == TotalOf(tree, files) + Length(tree, p)
  {
    var with, without := LengthsOf(tree, files + {p}), LengthsOf(tree, files);
    assert with - {p} == without;
    SumTake(with, p);
  }

  lemma CountedPlusOne(tree: Tree, seen: set<RelPath>, p: RelPath)
    requires p !in seen
    ensures CountedIn(tree, seen + {p}) == CountedIn(tree, seen) + (if Counts(tree, p) then {p} else {})
  {
  }

  /** The running totals of a walk are those of the user files seen so far. */
  ghost predicate Tallied(tree: Tree, root: RelPath, stack: seq<RelPath>, read: set<RelPath>, pending: set<RelPath>,
                          used: nat, count: nat) {
    && Walking(tree, root, EVERYTHING, stack, read, pending)
    && var files := CountedIn(tree, Seen(tree, root, EVERYTHING, read, pending));
       used == Min(TotalOf(tree, files), U64_MAX) && count == |files|
  }

  lemma TallyStarts(tree: Tree, root: RelPath)
    requires root in tree && tree[root].Folder?
    ensures Tallied(tree, root, [root], {}, {}, 0, 0)
  {
    WalkStarts(tree, root, EVERYTHING);
    assert CountedIn(tree, {}) == {};
    assert LengthsOf(tree, {}) == map[];
  }

  lemma TallyPops(tree: Tree, root: RelPath, stack: seq<RelPath>, read: set<RelPath>, used: nat, count: nat)
    requires Tallied(tree, root, stack, read, {}, used, count) && stack != []
    ensures var d := stack[|stack| - 1];
            && Tallied(tree, root, stack[..|stack| - 1], read + {d}, Entries(tree, d), used, count)
            && |ToReadSet(tree, root, EVERYTHING) - (read + {d})| < |ToReadSet(tree, root, EVERYTHING) - read|
  {
    var d := stack[|stack| - 1];
    WalkPops(tree, root, EVERYTHING, stack, read);
    PopSeesNothing(tree, root, EVERYTHING, stack, read, d);
    WalkProgress(tree, root, EVERYTHING, read, d);
  }

  /** What one entry adds to the totals. */
  function BytesOfEntry(tree: Tree, p: RelPath): nat {
    if Counts(tree, p) then Length(tree, p) else 0
  }

  /** The totals after one more shown entry. */
  lemma TotalsTake(tree: Tree, seen: set<RelPath>, p: RelPath)
    requires p !in seen
    ensures var before, after := CountedIn(tree, seen), CountedIn(tree, seen + {p});
            && TotalOf(tree, after) == TotalOf(tree, before) + BytesOfEntry(tree, p)
            && |after| == |before| + (if Counts(tree, p) then 1 else 0)
  {
    CountedPlusOne(tree, seen, p);
    var before := CountedIn(tree, seen);
    if Counts(tree, p) {
      TotalPlusOne(tree, before, p);
      assert CountedIn(tree, seen + {p}) == before + {p};
    } else {
      assert CountedIn(tree, seen + {p}) == before;
    }
  }

  lemma TallyTakes(tree: Tree, root: RelPath, stack: seq<RelPath>, read: set<RelPath>, pending: set<RelPath>,
                   used: nat, count: nat, p: RelPath)
    requires Tallied(tree, root, stack, read, pending, used, count) && p in pending
    ensures Tallied(tree, root, if tree[p].Folder? then stack + [p] else stack, read, pending - {p},
                    SaturatingAdd(used, BytesOfEntry(tree, p)), count + (if Counts(tree, p) then 1 else 0))
  {
    var seen := Seen(tree, root, EVERYTHING, read, pending);
    WalkTakes(tree, root, EVERYTHING, stack, read, pending, p);
    assert EVERYTHING(p);
    if Real(tree[p]) {
      TotalsTake(tree, seen, p);
    } else {
      assert seen + {} == seen;
    }
  }

  lemma TallyEnds(tree: Tree, root: RelPath, read: set<RelPath>, used: nat, count: nat)
    requires WellFormed(tree) && Tallied(tree, root, [], read, {}, used, count)
    ensures used == Min(BytesUnder(tree, root), U64_MAX) && count == |FilesUnder(tree, root)|
  {
    WalkEnds(tree, root, EVERYTHING, read);
  }

  /** `tree_stats`: a walk that adds up sizes; the sum saturates at the largest 64-bit value. */
  method TreeStats(tree: Tree, root: RelPath) returns (r: Result<(nat, nat), ()>)
    requires WellFormed(tree)
    ensures root !in tree ==> r == Ok((0, 0))
    ensures root in tree && !tree[root].Folder? ==> r.Err?
    ensures root in tree && tree[root].Folder? ==>
              r == Ok((Min(BytesUnder(tree, root), U64_MAX), |FilesUnder(tree, root)|))
  {
    if root !in tree {
      return Ok((0, 0));
    }
    if !tree[root].Folder? {
      return Err(());
    }
    var stack := [root];
    var used: nat, count: nat := 0, 0;
    ghost var read: set<RelPath> := {};
    TallyStarts(tree, root);
    while stack != []
      invariant Tallied(tree, root, stack, read, {}, used, count)
      decreases |ToReadSet(tree, root, EVERYTHING) - read|
    {
      var dir := stack[|stack| - 1];
      TallyPops(tree, root, stack, read, used, count);
      stack := stack[..|stack| - 1];
      read := read + {dir};
      var pending := Entries(tree, dir);
      while pending != {}
        invariant pending <= tree.Keys - {[]}
        invariant Tallied(tree, root, stack, read, pending, used, count)
        decreases pending
      {
        var entry :| entry in pending;
        TallyTakes(tree, root, stack, read, pending, used, count, entry);
        pending := pending - {entry};
        match tree[entry]
        case Folder(_) => stack := stack + [entry];
        case File(content, _) =>
          if !IsStagingName(Name(entry)) {
            used := SaturatingAdd(used, |content|);
            count := count + 1;
          }
        case _ =>
      }
    }
    TallyEnds(tree, root, read, used, count);
    return Ok((used, count));
  }
}
