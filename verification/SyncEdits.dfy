/** Which of the other handlers lose no path that sync has to know about: what they do to the tree, together with what
    they do to the tombstones. */
module SyncEdits {
  import opened Prelude
  import opened Text
  import opened Paths
  import opened FileTree
  import opened SyncModel
  import opened SyncDelta
  import opened TreeEdits

  /** Real entries that stay real stay visible. */
  lemma StaysVisible(a: Tree, b: Tree)
    requires forall p :: p in a && Real(a[p]) ==> p in b && Real(b[p])
    ensures Visible(a) <= Visible(b)
  {
  }

  lemma NewFileIsVisible(tree: Tree, path: RelPath, content: Bytes, now: nat)
    requires path != [] && Syncable(path)
    ensures path in Visible(WithFile(tree, path, content, now))
  {
  }

  /** After a finished upload the next completed scan lists the file with its size, its time and the hash of its bytes, unless a
      stored row of the path has that size and time already. */
  lemma PlacedFileIsListed(s: State, s': State, last: State, path: RelPath, content: Bytes, now: nat)
    requires path != [] && Syncable(path) && Edited(s, s', Placed(path)) && s'.tree == WithFile(s.tree, path, content, now)
    requires Scanned(s', last)
    requires path in s.rows && s.rows[path].entry.FileEntry? ==>
               s.rows[path].entry.size != |content| || s.rows[path].entry.modified != Some(now)
    ensures path in ViewOf(last) && ViewOf(last)[path] == FileEntry(|content|, Some(now), Sha256(content))
  {
    NewFileIsVisible(s.tree, path, content, now);
    WithFileLookup(s.tree, path, content, now, path);
    assert path in last.rows;
  }

  /** After a folder was created the next completed scan lists it, and the folders made on the way to it. */
  lemma CreatedFolderIsListed(s: State, s': State, last: State, text: string, path: RelPath, now: nat, p: RelPath)
    requires Edited(s, s', FolderCreated(text)) && s'.tree == WithFolders(s.tree, path, now) && Scanned(s', last)
    requires AtOrBelow(p, path) && Syncable(p) && p !in s.tree
    ensures p in ViewOf(last) && ViewOf(last)[p] == FolderEntry(Some(now))
  {
    WithFoldersLookup(s.tree, path, now, p);
    assert p in last.rows;
  }

  /** A finished upload is careful: the file is there when its tombstone goes. */
  lemma UploadIsCareful(s: State, s': State, path: RelPath, content: Bytes, now: nat)
    requires path != [] && Edited(s, s', Placed(path)) && s'.tree == WithFile(s.tree, path, content, now)
    ensures Careful(s, s')
  {
    StaysVisible(s.tree, s'.tree);
    if Syncable(path) {
      NewFileIsVisible(s.tree, path, content, now);
    }
    PlacingIsCareful(s, s', path);
  }

  /** A restore is careful: the entry is back when its tombstone goes. */
  lemma RestoreIsCareful(s: State, s': State, path: RelPath, item: Tree, now: nat)
    requires path != [] && [] in item && Real(item[[]]) && (forall p :: p in s.tree ==> !AtOrBelow(path, p))
    requires Edited(s, s', Placed(path)) && s'.tree == WithEntry(s.tree, path, item, now)
    ensures Careful(s, s')
  {
    forall p | p in s.tree && Real(s.tree[p]) ensures p in s'.tree && Real(s'.tree[p]) {
      WithEntryLookup(s.tree, path, item, now, p);
    }
    StaysVisible(s.tree, s'.tree);
    WithEntryLookup(s.tree, path, item, now, path);
    assert path[|path|..] == [];
    PlacingIsCareful(s, s', path);
  }

  lemma VisibleWithout(tree: Tree, path: RelPath)
    ensures Visible(Without(tree, path)) == set p | p in Visible(tree) && !AtOrBelow(path, p)
  {
  }

  /** Trashing an entry is careful exactly when every visible path inside it has a fingerprint or a tombstone already: the
      trash writes a tombstone for the entry only. */
  lemma TrashCarefulIff(s: State, s': State, path: RelPath)
    requires Edited(s, s', Trashed(path)) && s'.tree == Without(s.tree, path)
    ensures Careful(s, s') <==>
            forall p :: p in Visible(s.tree) && Below(path, p) ==> p in s.rows || p in s.tombs
  {
    VisibleWithout(s.tree, path);
    RemovalCareful(s, s', Trashed(path));
    forall p | p in Visible(s.tree) - Visible(s'.tree) ensures p == path || Below(path, p) {
      if |p| == |path| {
        assert p == p[..|path|];
      }
    }
    forall p | p in Visible(s.tree) && Below(path, p) ensures p in Visible(s.tree) - Visible(s'.tree) && p != path {
    }
  }

  /** The tombstones of everything at or below a folder are among those its creation drops, when it is named plainly. */
  lemma CreationDropsBelow(folder: RelPath, p: RelPath, tombs: map<RelPath, nat>)
    requires folder != [] && AtOrBelow(folder, p) && p in tombs
    ensures p in Dropped(FolderCreated(Display(folder)), tombs)
  {
    if |p| == |folder| {
      assert p == p[..|folder|];
    } else {
      var rest := p[|folder|..];
      assert p == folder + rest;
      DisplayConcat(folder, rest);
      LikeAnything(Display(rest));
      LikeSlash(Display(rest));
      LikeAfterSame(Display(folder), "/" + Display(rest), "/%");
      assert Display(p) == Display(folder) + ("/" + Display(rest));
      assert Like(Display(p), Display(folder) + "/%");
    }
  }

  lemma LikeSlash(rest: string)
    requires Like(rest, "%")
    ensures Like("/" + rest, "/%")
  {
    LikeAfterSame("/", rest, "%");
    assert "/" + "%" == "/%";
  }

  lemma {:induction false} DisplayConcat(a: RelPath, b: RelPath)
    requires a != [] && b != []
    ensures Display(a + b) == Display(a) + "/" + Display(b)
    decreases a
  {
    if |a| == 1 {
      assert (a + b)[0] == a[0] && (a + b)[1..] == b;
    } else {
      DisplayConcat(a[1..], b);
      assert (a + b)[0] == a[0] && (a + b)[1..] == a[1..] + b;
      assert a[0] + ['/'] + (Display(a[1..]) + "/" + Display(b)) == a[0] + ['/'] + Display(a[1..]) + "/" + Display(b);
    }
  }

  /** The text itself, or what lies below it up to ASCII case. */
  predicate NamedBelow(shown: string, text: string) {
    shown == text || (|shown| > |text| && SameLetters(shown[..|text|], text) && shown[|text|] == '/')
  }

  function AllNamedBelow(text: string, tombs: map<RelPath, nat>): set<RelPath> {
    set p | p in tombs && NamedBelow(Display(p), text)
  }

  lemma LikeBelow(shown: string)
    ensures Like(shown, "/%") <==> shown != "" && shown[0] == '/'
  {
    assert "/%"[1..] == "%";
    if shown != "" {
      LikeAnything(shown[1..]);
    }
  }

  lemma LiteralDrops(shown: string, text: string)
    requires Literal(text)
    ensures shown == text || Like(shown, text + "/%") <==> NamedBelow(shown, text)
  {
    LikeLiteral(shown, text, "/%");
    if |shown| >= |text| {
      LikeBelow(shown[|text|..]);
    }
  }

  /** A wildcard stands for any other character as well. */
  lemma WildcardDropsMore(text: string, i: nat, c: char)
    requires i < |text| && (text[i] == '_' || text[i] == '%') && LowerChar(c) != LowerChar(text[i])
    ensures var shown := text[i := c] + "/x"; Like(shown, text + "/%") && !NamedBelow(shown, text)
  {
    OneCharacterReplaced(text[..i], c, text[i], text[i + 1..]);
    var other := text[i := c];
    AroundOne(other, i, "/x");
    assert other[..i] == text[..i] && other[i + 1..] == text[i + 1..];
    AroundOne(text, i, "/%");
    ReplacedIsNotBelow(text, i, c);
  }

  lemma AroundOne(text: string, i: nat, more: string)
    requires i < |text|
    ensures text[..i] + ([text[i]] + (text[i + 1..] + more)) == text + more
  {
    assert text[..i] + [text[i]] + text[i + 1..] == text;
    Regrouped(text[..i], [text[i]], text[i + 1..], more);
  }

  lemma Regrouped(a: string, b: string, c: string, d: string)
    ensures a + (b + (c + d)) == a + b + c + d
  {
  }

  lemma ReplacedIsNotBelow(text: string, i: nat, c: char)
    requires i < |text| && LowerChar(c) != LowerChar(text[i])
    ensures !NamedBelow(text[i := c] + "/x", text)
  {
    assert (text[i := c] + "/x")[..|text|][i] == c;
  }

  lemma OneCharacterReplaced(front: string, c: char, wildcard: char, back: string)
    requires wildcard == '_' || wildcard == '%'
    ensures Like(front + ([c] + (back + "/x")), front + ([wildcard] + (back + "/%")))
  {
    LikeBelow("/x");
    LikeAfterSame(back, "/x", "/%");
    AnyOneCharacter(c, back + "/x", wildcard, back + "/%");
    LikeAfterSame(front, [c] + (back + "/x"), [wildcard] + (back + "/%"));
  }

  lemma AnyOneCharacter(c: char, rest: string, wildcard: char, pattern: string)
    requires Like(rest, pattern) && (wildcard == '_' || wildcard == '%')
    ensures Like([c] + rest, [wildcard] + pattern)
  {
    assert ([c] + rest)[1..] == rest && ([wildcard] + pattern)[1..] == pattern;
    assert wildcard == '%' ==> Like(rest, [wildcard] + pattern);
  }

  /** Creating a folder drops the tombstones of that text and of what lies below it up to ASCII case, and no others whatever the
      tombstones are, exactly when the text holds no wildcard. */
  lemma CreationDropsNamedIff(text: string)
    ensures Literal(text) <==>
            forall tombs: map<RelPath, nat> :: Dropped(FolderCreated(text), tombs) == AllNamedBelow(text, tombs)
  {
    if Literal(text) {
      forall tombs: map<RelPath, nat> ensures Dropped(FolderCreated(text), tombs) == AllNamedBelow(text, tombs) {
        forall p | p in tombs ensures p in Dropped(FolderCreated(text), tombs) <==> p in AllNamedBelow(text, tombs) {
          LiteralDrops(Display(p), text);
        }
      }
    } else {
      var i :| 0 <= i < |text| && (text[i] == '_' || text[i] == '%');
      var shown := text[i := 'x'] + "/x";
      WildcardDropsMore(text, i, 'x');
      JoinOfSplit(shown, '/');
      var p := Split(shown, '/');
      assert Display(p) == shown;
      var tombs: map<RelPath, nat> := map[p := 0];
      assert p in Dropped(FolderCreated(text), tombs) && p !in AllNamedBelow(text, tombs);
    }
  }

  /** Case does not matter below the folder, but it does for the folder itself. */
  lemma OtherCaseIsDropped(tombs: map<RelPath, nat>)
    requires ["D", "y"] in tombs && ["D"] in tombs
    ensures ["D", "y"] in Dropped(FolderCreated("d"), tombs) && ["D"] !in Dropped(FolderCreated("d"), tombs)
  {
    CreationDropsNamedIff("d");
    assert Display(["D", "y"]) == "D/y" && Display(["D"]) == "D";
    assert "D/y"[..1] == "D";
    assert NamedBelow("D/y", "d");
  }

  /** Creating a folder is careful exactly when every fingerprint-less synced path whose tombstone goes can be seen. */
  lemma CreationCarefulIff(s: State, s': State, text: string, path: RelPath, now: nat)
    requires Edited(s, s', FolderCreated(text)) && s'.tree == WithFolders(s.tree, path, now)
    ensures Careful(s, s') <==>
            forall p :: p in Dropped(FolderCreated(text), s.tombs) && p !in s.rows && Syncable(p) ==> p in Visible(s'.tree)
  {
    StaysVisible(s.tree, s'.tree);
    FolderCreationCareful(s, s', text);
  }
}
