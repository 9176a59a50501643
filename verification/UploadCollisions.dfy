/** Target names that read as staging names: the server accepts them, and then one upload writes another's
    staging file (server/src/handlers/upload.rs). */
module UploadCollisions {
  import opened Prelude
  import opened Text
  import opened Paths
  import opened StagingNames
  import opened UploadModel
  import opened UploadNoHoles

  /** A name collides exactly when a target of that name is the staging file of some upload to the same folder. */
  lemma CollidesIff(user: User, folder: RelPath, name: string, x: Uuid)
    ensures Collides(name) <==>
            exists t, y :: IsNormal(t) && PlaceOf(user, folder + [name], x).target == PlaceOf(user, folder + [t], y).staging
  {
    CollidesExactly(name);
    forall t, y | IsNormal(t)
      ensures PlaceOf(user, folder + [name], x).target == PlaceOf(user, folder + [t], y).staging <==> name == StagingName(t, y)
    {
      StagingOf(user, folder, t, y);
      if folder + [name] == folder + [StagingName(t, y)] {
        assert (folder + [name])[|folder|] == name;
        assert (folder + [StagingName(t, y)])[|folder|] == StagingName(t, y);
      }
    }
  }

  lemma StagingOf(user: User, folder: RelPath, t: string, y: Uuid)
    ensures PlaceOf(user, folder + [t], y).staging == FileKey(user, folder + [StagingName(t, y)])
  {
    var p := folder + [t];
    assert p[..|p| - 1] == folder && p[|p| - 1] == t;
  }

  /** A name that does not collide is the staging file of no upload to any target that can exist. */
  lemma OtherNamesAreApart(user: User, folder: RelPath, name: string, id: Uuid, other: User, path: RelPath, y: Uuid)
    requires !Collides(name) && Usable(path)
    ensures PlaceOf(user, folder + [name], id).target != PlaceOf(other, path, y).staging
  {
    var staged := FileName(StagingPath(path, y));
    assert staged == StagingName(FileName(path), y);
    CollidesExactly(staged);
    assert FileName(folder + [name]) == name;
  }

  /** A marker and an id are not enough: in another spelling the id still reads, and the name is nobody's. */
  lemma PlainIdDoesNotCollide(t: string)
    ensures var name := t + STAGING_MARKER + "00000000000000000000000000000000";
            StagingUploadId(name).Some? && !Collides(name)
  {
    var tail := "00000000000000000000000000000000";
    var name := t + STAGING_MARKER + tail;
    assert |tail| == 32;
    MarkerCut(t, tail);
    assert FromHex(tail).Some?;
    assert |UuidText(StagingUploadId(name).value)| == 36;
  }

  /** The chunk handler takes every name that can exist, sent behind a dot and a slash, staging names included. */
  lemma ServerAcceptsName(name: string)
    requires IsNormal(name)
    ensures Locate("", "./" + name) == Some([name])
  {
    NameBehindDot(name);
    TrimFixedPoint("./" + name);
    assert ("./" + name)[0] == '.';
    assert [] + [name] == [name];
  }

  lemma NameBehindDot(name: string)
    requires IsNormal(name)
    ensures FileNameOf("./" + name) == Some(name)
  {
    SplitOfPiece(".", name, '/');
    SplitOfPiece(name, "", '/');
    assert "." + ['/'] + name == "./" + name;
    assert ["."] + [name] == [".", name];
  }

  lemma StagingNameIsNormal(t: string, y: Uuid)
    requires IsNormal(t)
    ensures IsNormal(StagingName(t, y))
  {
    UuidTextHasNoSlash(y);
    assert '/' !in STAGING_MARKER;
    assert |StagingName(t, y)| > 2;
  }

  lemma UuidTextHasNoSlash(id: Uuid)
    ensures '/' !in UuidText(id)
  {
  }

  /** First chunk of one upload, then all of another whose target is the first one's staging file: the next
      chunk of the first upload is accepted on top of bytes that are not its own. */
  lemma CollisionFoolsReconciliation(first: ChunkRequest, a: Place, other: ChunkRequest, b: Place, next: ChunkRequest, now: nat)
    requires first.id != other.id && first.user == other.user && b.target == a.staging
    requires a.staging != b.staging && a.target != a.staging && b.target != b.staging
    requires first.offset == other.offset == 0 && first.contentLength.None? && other.contentLength.None?
    requires 0 < |first.body| < first.total && |other.body| == other.total == |first.body|
    requires next == first.(offset := |first.body|)
    ensures var w1 := ChunkAt(EMPTY, first, a, NO_FAULTS, now).0;
            var w2 := ChunkAt(w1, other, b, NO_FAULTS, now).0;
            var p := Prepare(w2, next, a, NO_FAULTS, now);
            && p.Proceed? && p.received == |first.body|
            && a.staging in p.world.files && p.world.files[a.staging] == other.body
  {
    var w1 := ChunkAt(EMPTY, first, a, NO_FAULTS, now).0;
    StartsUpload(first, a, now);
    WholeInOneChunk(w1, other, b, now);
  }

  lemma StartsUpload(q: ChunkRequest, at: Place, now: nat)
    requires q.offset == 0 && q.contentLength.None? && 0 < |q.body| < q.total
    ensures var w := ChunkAt(EMPTY, q, at, NO_FAULTS, now).0;
            && w.jobs == map[q.id := Job(q.user, at.text, |q.body|, Receiving, |q.body|, Some(q.total), None, NoError, now)]
            && w.files == map[at.staging := q.body]
  {
    assert [][..0] + q.body + [] == q.body;
  }

  lemma WholeInOneChunk(w: World, q: ChunkRequest, at: Place, now: nat)
    requires q.id !in w.jobs && at.staging !in w.files && at.target != at.staging
    requires q.offset == 0 && q.contentLength.None? && |q.body| == q.total
    ensures var w' := ChunkAt(w, q, at, NO_FAULTS, now).0;
            && at.target in w'.files && w'.files == w.files[at.target := q.body]
            && q.id in w'.jobs && w'.jobs == w.jobs[q.id := w'.jobs[q.id]] && w'.jobs[q.id].status == Completed
            && w'.jobs[q.id].user == q.user && w'.jobs[q.id].sizeBytes == q.total && w'.jobs[q.id].updatedAt == now
  {
    assert [][..0] + q.body + [] == q.body;
  }

  /** For every colliding name there is a run in which "no holes" fails: both clients only send parts of their own
      sources, and yet the first one's next chunk is accepted on top of the other's bytes. */
  lemma NoHolesNeedsNameCheck(user: User, name: string, x: Uuid, mine: Bytes, theirs: Bytes, total: nat, now: nat, maxBytes: nat)
    returns (t: string, y: Uuid)
    requires Collides(name) && StagingUploadId(name) != Some(x) && 0 < |mine| == |theirs| < total <= maxBytes
    ensures var first := ChunkRequest(user, y, "", "./" + t, 0, total, None, mine);
            var other := ChunkRequest(user, x, "", "./" + name, 0, |theirs|, None, theirs);
            var steps := [ChunkStep(first, NO_FAULTS, now), ChunkStep(other, NO_FAULTS, now)];
            var at := PlaceOf(user, [t], y);
            var p := Prepare(Run(EMPTY, steps, maxBytes), first.(offset := |mine|), at, NO_FAULTS, now);
            && LocateChunk(first) == Some(at) && LocateChunk(other) == Some(PlaceOf(user, [name], x))
            && p.Proceed? && p.received == |mine|
            && at.staging in p.world.files && p.world.files[at.staging] == theirs
  {
    CollidesExactly(name);
    t, y :| IsNormal(t) && name == StagingName(t, y);
    StagingNameParsesBack(t, y);
    var first := ChunkRequest(user, y, "", "./" + t, 0, total, None, mine);
    var other := ChunkRequest(user, x, "", "./" + name, 0, |theirs|, None, theirs);
    ServerAcceptsName(t);
    StagingNameIsNormal(t, y);
    ServerAcceptsName(name);
    CollidingPlaces(user, t, x, y);
    TwoChunks(first, PlaceOf(user, [t], y), other, PlaceOf(user, [name], x), now, maxBytes);
    CollisionFoolsReconciliation(first, PlaceOf(user, [t], y), other, PlaceOf(user, [name], x), first.(offset := |mine|), now);
  }

  lemma CollidingPlaces(user: User, t: string, x: Uuid, y: Uuid)
    requires x != y
    ensures var a, b := PlaceOf(user, [t], y), PlaceOf(user, [StagingName(t, y)], x);
            b.target == a.staging && a.staging != b.staging && a.target != a.staging && b.target != b.staging
  {
    StagingPathParsesBack([t], y);
    StagingPathParsesBack([StagingName(t, y)], x);
    assert [t][..0] == [] && [] + [StagingName(t, y)] == [StagingName(t, y)];
    assert |FileName(StagingPath([t], y))| > |FileName([t])|;
    assert |FileName(StagingPath([StagingName(t, y)], x))| > |FileName([StagingName(t, y)])|;
  }

  lemma TwoChunks(first: ChunkRequest, a: Place, other: ChunkRequest, b: Place, now: nat, maxBytes: nat)
    requires LocateChunk(first) == Some(a) && LocateChunk(other) == Some(b)
    requires first.total <= maxBytes && other.total <= maxBytes
    ensures Run(EMPTY, [ChunkStep(first, NO_FAULTS, now), ChunkStep(other, NO_FAULTS, now)], maxBytes)
         == ChunkAt(ChunkAt(EMPTY, first, a, NO_FAULTS, now).0, other, b, NO_FAULTS, now).0
  {
    var s, t := ChunkStep(first, NO_FAULTS, now), ChunkStep(other, NO_FAULTS, now);
    FaultFreeChunk(EMPTY, first, a, now, maxBytes);
    var w1 := Apply(EMPTY, s, maxBytes);
    FaultFreeChunk(w1, other, b, now, maxBytes);
    assert [s, t][1..] == [t] && [t][1..] == [];
    assert Run(Apply(w1, t, maxBytes), [], maxBytes) == Apply(w1, t, maxBytes);
    assert Run(w1, [t], maxBytes) == Apply(w1, t, maxBytes);
  }

  lemma ReachesPlace(w: World, q: ChunkRequest, path: RelPath, f: ChunkFaults, now: nat, maxBytes: nat)
    requires Locate(q.folder, q.name) == Some(path) && q.total <= maxBytes && f.slot && f.writeAccess && f.parentOk
    ensures Chunk(w, q, f, now, maxBytes) == ChunkAt(w, q, PlaceOf(q.user, path, q.id), f, now)
  {
  }

  lemma FaultFreeChunk(w: World, q: ChunkRequest, at: Place, now: nat, maxBytes: nat)
    requires LocateChunk(q) == Some(at) && q.total <= maxBytes
    ensures Chunk(w, q, NO_FAULTS, now, maxBytes) == ChunkAt(w, q, at, NO_FAULTS, now)
  {
    ReachesPlace(w, q, Locate(q.folder, q.name).value, NO_FAULTS, now, maxBytes);
  }
}
