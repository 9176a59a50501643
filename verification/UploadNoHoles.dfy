/** No transfer ever leaves a hole: whenever a chunk is accepted, the staging file is exactly
    the confirmed prefix of the source. */
module UploadNoHoles {
  import opened Prelude
  import opened Paths
  import opened StagingNames
  import opened UploadModel

  /** The file each client means to send under an upload id. */
  type Sources = (User, Uuid) -> Bytes

  /** The upload id carried by a file's name. */
  function TransferOf(key: FileKey): Option<Uuid> {
    StagingUploadId(FileName(key.path))
  }

  /** A slice of the source that starts at `offset`. */
  predicate SliceAt(source: Bytes, offset: nat, body: Bytes) {
    offset + |body| <= |source| && source[offset..offset + |body|] == body
  }

  /** The source a file must hold a prefix of, for files that are staging files. */
  type Bound = FileKey -> Option<Bytes>

  function SourceOf(src: Sources): Bound {
    (key: FileKey) => if Collides(FileName(key.path)) then Some(src(key.user, TransferOf(key).value)) else None
  }

  /** The target is nobody's staging file, and the staging file is bound to this source. */
  predicate Separate(at: Place, source: Bytes, bound: Bound) {
    bound(at.target).None? && bound(at.staging) == Some(source)
  }

  /** The target name of a request is nobody's staging name. */
  predicate OrdinaryName(name: string) {
    FileNameOf(name).Some? ==> !Collides(FileNameOf(name).value)
  }

  /** Clients send parts of their source at the offset they name, to names that do not collide. Nothing is assumed about
      which offsets they name, how often, or how their requests end. */
  predicate Honest(s: Step, src: Sources) {
    match s
    case ChunkStep(q, _, _) =>
      SliceAt(src(q.user, q.id), q.offset, q.body) && OrdinaryName(q.name)
    case FileStep(q, _, _) =>
      q.body <= src(q.user, q.id) && OrdinaryName(q.name)
    case OtherWrite(key, content) => content.Some? ==> !Collides(FileName(key.path))
    case _ => true
  }

  predicate AllHonest(steps: seq<Step>, src: Sources) {
    forall i :: 0 <= i < |steps| ==> Honest(steps[i], src)
  }

  /** Every staging file holds a prefix of the source it belongs to. */
  ghost predicate StagedPrefixes(files: map<FileKey, Bytes>, bound: Bound) {
    forall key :: key in files && bound(key).Some? ==> files[key] <= bound(key).value
  }

  /** The path of a target that can exist. */
  predicate Usable(path: RelPath) {
    path != [] && IsNormal(FileName(path))
  }

  lemma StagedSource(user: User, path: RelPath, id: Uuid, src: Sources)
    requires Usable(path)
    ensures SourceOf(src)(StagingKey(user, path, id)) == Some(src(user, id))
  {
    var name := FileName(StagingPath(path, id));
    assert name == StagingName(FileName(path), id);
    StagingPathParsesBack(path, id);
    CollidesExactly(name);
    assert TransferOf(StagingKey(user, path, id)) == Some(id);
  }

  lemma UnboundTarget(user: User, folder: RelPath, name: string, src: Sources)
    requires !Collides(name)
    ensures SourceOf(src)(FileKey(user, folder + [name])).None?
  {
    var key := FileKey(user, folder + [name]);
    assert FileName(key.path) == name;
  }

  lemma PlaceIsSeparate(user: User, folder: RelPath, name: string, id: Uuid, src: Sources)
    requires !Collides(name) && IsNormal(name)
    ensures Separate(PlaceOf(user, folder + [name], id), src(user, id), SourceOf(src))
  {
    StagedSource(user, folder + [name], id, src);
    UnboundTarget(user, folder, name, src);
  }

  /** A write at the agreed offset extends the file, and any flushed part of it keeps the prefix. */
  lemma AppendKeepsPrefix(source: Bytes, staged: Bytes, body: Bytes, n: nat)
    requires staged <= source && SliceAt(source, |staged|, body) && n <= |body|
    ensures WriteAt(staged, |staged|, body[..n]) == staged + body[..n] <= source
    ensures WriteAt(staged, |staged|, body) == staged + body <= source
  {
    assert body[..|body|] == body;
    assert source[|staged|..|staged| + |body|][..n] == source[|staged|..|staged| + n];
  }

  /** Once the offset check passes, the staging file has exactly the confirmed number of bytes,
      and the row says so too. No assumption on clients is needed for the length. */
  lemma PrepareIsExact(w: World, q: ChunkRequest, at: Place, f: ChunkFaults, now: nat)
    requires Prepare(w, q, at, f, now).Proceed?
    ensures var p := Prepare(w, q, at, f, now);
            && q.id in p.world.jobs && at.staging in p.world.files
            && q.offset == p.received == |p.world.files[at.staging]| == p.world.jobs[q.id].received
  {
  }

  /** Before the body, the only file that changes is the staging file, which is cut short or created empty. */
  lemma PrepareFiles(w: World, q: ChunkRequest, at: Place, f: ChunkFaults, now: nat)
    ensures var files := Prepare(w, q, at, f, now).world.files;
            || files == w.files
            || (at.staging in files && files == w.files[at.staging := files[at.staging]]
                && files[at.staging] <= (if at.staging in w.files then w.files[at.staging] else []))
  {
  }

  lemma PrepareKeepsPrefixes(w: World, q: ChunkRequest, at: Place, f: ChunkFaults, now: nat, bound: Bound)
    requires StagedPrefixes(w.files, bound)
    ensures StagedPrefixes(Prepare(w, q, at, f, now).world.files, bound)
  {
    PrepareFiles(w, q, at, f, now);
  }

  lemma FinishKeepsPrefixes(w: World, q: ChunkRequest, at: Place, f: ChunkFaults, now: nat, bound: Bound)
    requires StagedPrefixes(w.files, bound) && bound(at.target).None?
    requires q.id in w.jobs && at.staging in w.files
    ensures StagedPrefixes(Finish(w, q, at, f, now).0.files, bound)
  {
  }

  lemma ReceiveKeepsPrefixes(w: World, q: ChunkRequest, at: Place, received: nat, f: ChunkFaults, now: nat,
                             source: Bytes, bound: Bound)
    requires StagedPrefixes(w.files, bound) && Separate(at, source, bound)
    requires q.id in w.jobs && at.staging in w.files
    requires q.offset == received == |w.files[at.staging]| && SliceAt(source, q.offset, q.body)
    ensures StagedPrefixes(Receive(w, q, at, received, f, now).0.files, bound)
  {
    var staged := w.files[at.staging];
    AppendKeepsPrefix(source, staged, q.body, Min(f.flushed, |q.body|));
    var full := SetFile(w, at.staging, WriteAt(staged, q.offset, q.body));
    assert StagedPrefixes(full.files, bound);
    FinishKeepsPrefixes(full, q, at, f, now, bound);
  }

  /** Where a chunk goes. */
  function LocateChunk(q: ChunkRequest): Option<Place> {
    var path := Locate(q.folder, q.name);
    if path.Some? then Some(PlaceOf(q.user, path.value, q.id)) else None
  }

  lemma ChunkCases(w: World, q: ChunkRequest, f: ChunkFaults, now: nat, maxBytes: nat)
    ensures var w' := Chunk(w, q, f, now, maxBytes).0;
            w' == w || (LocateChunk(q).Some? && w' == ChunkAt(w, q, LocateChunk(q).value, f, now).0)
  {
  }

  lemma LocatedPlaceIsSeparate(q: ChunkRequest, src: Sources)
    requires LocateChunk(q).Some? && OrdinaryName(q.name)
    ensures Separate(LocateChunk(q).value, src(q.user, q.id), SourceOf(src))
  {
    FileNameIsNormal(q.name);
    PlaceIsSeparate(q.user, Parse(q.folder).value, FileNameOf(q.name).value, q.id, src);
  }

  lemma ChunkKeepsPrefixes(w: World, q: ChunkRequest, f: ChunkFaults, now: nat, maxBytes: nat, src: Sources)
    requires StagedPrefixes(w.files, SourceOf(src)) && Honest(ChunkStep(q, f, now), src)
    ensures StagedPrefixes(Chunk(w, q, f, now, maxBytes).0.files, SourceOf(src))
  {
    var path := Locate(q.folder, q.name);
    if path.Some? {
      var at := PlaceOf(q.user, path.value, q.id);
      LocatedPlaceIsSeparate(q, src);
      PrepareKeepsPrefixes(w, q, at, f, now, SourceOf(src));
      var p := Prepare(w, q, at, f, now);
      if p.Proceed? {
        PrepareIsExact(w, q, at, f, now);
        ReceiveKeepsPrefixes(p.world, q, at, p.received, f, now, src(q.user, q.id), SourceOf(src));
      }
    }
  }

  lemma PlaceFileKeepsPrefixes(w: World, q: FileRequest, at: Place, f: FileFaults, now: nat, bound: Bound)
    requires StagedPrefixes(w.files, bound) && bound(at.target).None?
    requires q.id in w.jobs && at.staging in w.files
    ensures StagedPrefixes(PlaceFile(w, q, at, f, now).0.files, bound)
  {
  }

  lemma StageFileKeepsPrefixes(w: World, q: FileRequest, at: Place, f: FileFaults, now: nat, source: Bytes, bound: Bound)
    requires StagedPrefixes(w.files, bound) && Separate(at, source, bound)
    requires q.body <= source
    ensures StagedPrefixes(StageFile(w, q, at, f, now).0.files, bound)
  {
    if f.claim.Done? && f.create.Done? {
      var w2 := SetFile(ClaimFile(w, q, at.text, now), at.staging, []);
      PlaceFileKeepsPrefixes(SetFile(w2, at.staging, q.body), q, at, f, now, bound);
    }
  }

  /** Where a whole-file upload goes. */
  function LocateFile(q: FileRequest): Option<Place> {
    if Parse(q.folder).Ok? && FileNameOf(q.name).Some?
    then Some(PlaceOf(q.user, Parse(q.folder).value + [FileNameOf(q.name).value], q.id)) else None
  }

  lemma WholeFileCases(w: World, q: FileRequest, f: FileFaults, now: nat)
    ensures var w' := WholeFile(w, q, f, now).0;
            w' == w || (LocateFile(q).Some? && w' == StageFile(w, q, LocateFile(q).value, f, now).0)
  {
  }

  lemma LocatedFileIsSeparate(q: FileRequest, src: Sources)
    requires OrdinaryName(q.name)
    ensures LocateFile(q).Some? ==> Separate(LocateFile(q).value, src(q.user, q.id), SourceOf(src))
  {
    if LocateFile(q).Some? {
      FileNameIsNormal(q.name);
      PlaceIsSeparate(q.user, Parse(q.folder).value, FileNameOf(q.name).value, q.id, src);
    }
  }

  lemma WholeFileKeepsPrefixes(w: World, w': World, q: FileRequest, at: Option<Place>, f: FileFaults, now: nat,
                               source: Bytes, bound: Bound)
    requires StagedPrefixes(w.files, bound) && q.body <= source
    requires at.Some? ==> Separate(at.value, source, bound)
    requires w' == w || (at.Some? && w' == StageFile(w, q, at.value, f, now).0)
    ensures StagedPrefixes(w'.files, bound)
  {
    if at.Some? {
      StageFileKeepsPrefixes(w, q, at.value, f, now, source, bound);
    }
  }

  lemma FileKeepsPrefixes(w: World, q: FileRequest, f: FileFaults, now: nat, src: Sources)
    requires StagedPrefixes(w.files, SourceOf(src)) && Honest(FileStep(q, f, now), src)
    ensures StagedPrefixes(WholeFile(w, q, f, now).0.files, SourceOf(src))
  {
    WholeFileCases(w, q, f, now);
    LocatedFileIsSeparate(q, src);
    WholeFileKeepsPrefixes(w, WholeFile(w, q, f, now).0, q, LocateFile(q), f, now, src(q.user, q.id), SourceOf(src));
  }

  lemma StepKeepsPrefixes(w: World, s: Step, maxBytes: nat, src: Sources)
    requires StagedPrefixes(w.files, SourceOf(src)) && Honest(s, src)
    ensures StagedPrefixes(Apply(w, s, maxBytes).files, SourceOf(src))
  {
    match s
    case ChunkStep(q, f, now) => ChunkKeepsPrefixes(w, q, f, now, maxBytes, src);
    case FileStep(q, f, now) => FileKeepsPrefixes(w, q, f, now, src);
    case _ =>
  }

  lemma {:induction false} RunKeepsPrefixes(w: World, steps: seq<Step>, maxBytes: nat, src: Sources)
    requires StagedPrefixes(w.files, SourceOf(src)) && AllHonest(steps, src)
    ensures StagedPrefixes(Run(w, steps, maxBytes).files, SourceOf(src))
    decreases steps
  {
    if steps != [] {
      StepKeepsPrefixes(w, steps[0], maxBytes, src);
      RunKeepsPrefixes(Apply(w, steps[0], maxBytes), steps[1..], maxBytes, src);
    }
  }

  lemma AcceptedChunkSeesPrefix(w: World, q: ChunkRequest, at: Place, f: ChunkFaults, now: nat, source: Bytes, bound: Bound)
    requires StagedPrefixes(w.files, bound) && bound(at.staging) == Some(source)
    requires Prepare(w, q, at, f, now).Proceed?
    ensures var p := Prepare(w, q, at, f, now);
            && q.id in p.world.jobs && at.staging in p.world.files
            && |p.world.files[at.staging]| == p.received == q.offset == p.world.jobs[q.id].received <= |source|
            && p.world.files[at.staging] == source[..p.received]
  {
    PrepareIsExact(w, q, at, f, now);
    PrepareKeepsPrefixes(w, q, at, f, now, bound);
  }

  /** In every run of chunks, dropped bodies, failed commits, whole-file uploads, cancels, sweeps,
      crashes and restarts, a chunk that passes the offset check finds the staging file equal to
      the first `received` bytes of the source. */
  lemma NoHoles(steps: seq<Step>, maxBytes: nat, src: Sources, q: ChunkRequest, at: Place, f: ChunkFaults, now: nat)
    requires AllHonest(steps, src)
    ensures var p := Prepare(Run(EMPTY, steps, maxBytes), q, at, f, now);
            LocateChunk(q) == Some(at) && p.Proceed? ==>
              && q.id in p.world.jobs && at.staging in p.world.files
              && var staged := p.world.files[at.staging];
              && |staged| == p.received == q.offset <= |src(q.user, q.id)|
              && staged == src(q.user, q.id)[..p.received]
              && p.world.jobs[q.id].received == p.received
  {
    RunKeepsPrefixes(EMPTY, steps, maxBytes, src);
    if LocateChunk(q) == Some(at) && Prepare(Run(EMPTY, steps, maxBytes), q, at, f, now).Proceed? {
      LocatedStagingIsBound(q, src);
      AcceptedChunkSeesPrefix(Run(EMPTY, steps, maxBytes), q, at, f, now, src(q.user, q.id), SourceOf(src));
    }
  }

  lemma LocatedStagingIsBound(q: ChunkRequest, src: Sources)
    requires LocateChunk(q).Some?
    ensures SourceOf(src)(LocateChunk(q).value.staging) == Some(src(q.user, q.id))
  {
    FileNameIsNormal(q.name);
    StagedSource(q.user, Locate(q.folder, q.name).value, q.id, src);
  }
}
