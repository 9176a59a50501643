/** An interrupted transfer can always be finished, and in how many requests. */
module UploadRecovery {
  import opened Prelude
  import opened Paths
  import opened StagingNames
  import opened UploadModel
  import opened UploadNoHoles

  /** A client that sends one file in chunks of a fixed size. */
  datatype Client = Client(user: User, id: Uuid, folder: string, name: string, source: Bytes, chunk: nat)

  function Request(c: Client, offset: nat): ChunkRequest {
    var from := Min(offset, |c.source|);
    var body := c.source[from..Min(from + c.chunk, |c.source|)];
    ChunkRequest(c.user, c.id, c.folder, c.name, offset, |c.source|, Some(|body|), body)
  }

  /** What a server answers to the chunk a client sends from an offset. */
  type Server = (World, nat) -> (World, Response)

  /** The server of the model, when nothing fails. */
  function FaultFree(c: Client, now: nat, maxBytes: nat): Server {
    (w: World, offset: nat) => Chunk(w, Request(c, offset), NO_FAULTS, now, maxBytes)
  }

  /** The client obeys every offset the server returns; the result is the world after at most
      `requests` requests, if the upload finished by then. */
  function Drive(server: Server, w: World, offset: nat, requests: nat): Option<World>
    decreases requests
  {
    if requests == 0 then None
    else
      var (w', response) := server(w, offset);
      match response
      case Finished(_) => Some(w')
      case ResumeFrom(next) => Drive(server, w', next, requests - 1)
      case Continue(next) => Drive(server, w', next, requests - 1)
      case _ => None
  }

  /** How many chunks a remainder takes; an empty remainder still takes one request. */
  function Chunks(rest: nat, chunk: nat): nat
    requires chunk > 0
  {
    if rest <= chunk then 1 else 1 + Chunks(rest - chunk, chunk)
  }

  lemma QuotientPlusOne(n: nat, k: nat)
    requires k > 0
    ensures (n + k) / k == n / k + 1
    ensures n < k ==> n / k == 0
  {
    var quotient, remainder := n / k, n % k;
    assert n + k == (quotient + 1) * k + remainder;
    QuotientIsUnique(n + k, k, quotient + 1, remainder);
  }

  lemma MultipleIsFar(d: int, k: int)
    requires k > 0
    ensures d >= 1 ==> d * k >= k
    ensures d <= -1 ==> d * k <= -k
  {
  }

  lemma QuotientIsUnique(n: nat, k: nat, quotient: nat, remainder: nat)
    requires k > 0 && n == quotient * k + remainder && remainder < k
    ensures n / k == quotient
  {
    var d := n / k - quotient;
    assert n == (n / k) * k + n % k;
    assert d * k == remainder - n % k;
    MultipleIsFar(d, k);
  }

  lemma {:induction false} ChunksIsCeiling(rest: nat, chunk: nat)
    requires chunk > 0
    ensures Chunks(rest, chunk) == (if rest == 0 then 1 else (rest + chunk - 1) / chunk)
  {
    if rest > chunk {
      ChunksIsCeiling(rest - chunk, chunk);
      QuotientPlusOne(rest - 1, chunk);
    } else if rest > 0 {
      QuotientPlusOne(rest - 1, chunk);
    }
  }

  /** An unfinished job of this client whose path and total match, in any state a run can reach. */
  predicate Resumable(w: World, c: Client, at: Place) {
    && c.id in w.jobs && w.jobs[c.id].user == c.user
    && w.jobs[c.id].status != Completed
    && w.jobs[c.id].path == at.text && w.jobs[c.id].total == Some(|c.source|)
    && (at.staging in w.files ==> w.files[at.staging] <= c.source)
  }

  /** The offset the server will agree on. */
  function AgreedOffset(w: World, c: Client, at: Place): nat
    requires c.id in w.jobs
  {
    Min(FileLen(w, at.staging), w.jobs[c.id].received)
  }

  /** The upload is finished: the row says so, and the target is the source. */
  predicate Delivered(w: World, c: Client, at: Place) {
    && c.id in w.jobs && w.jobs[c.id].status == Completed
    && w.jobs[c.id].received == w.jobs[c.id].sizeBytes == |c.source|
    && w.jobs[c.id].checksum == Some(Sha256(c.source))
    && at.target in w.files && w.files[at.target] == c.source
  }

  lemma AgreedPrepare(w: World, c: Client, at: Place, offset: nat, now: nat)
    requires Resumable(w, c, at) && c.chunk > 0 && offset <= |c.source|
    ensures var r := AgreedOffset(w, c, at);
            var p := Prepare(w, Request(c, offset), at, NO_FAULTS, now);
            && r <= |c.source|
            && Resumable(p.world, c, at) && AgreedOffset(p.world, c, at) == r
            && at.staging in p.world.files && p.world.files[at.staging] == c.source[..r]
            && (offset == r ==> p == Proceed(p.world, r))
            && (offset != r ==> p == Answer(p.world, ResumeFrom(r)))
  {
  }

  lemma LastChunk(w: World, c: Client, at: Place, now: nat)
    requires Resumable(w, c, at) && c.chunk > 0 && at.target != at.staging
    requires at.staging in w.files
    requires var r := |w.files[at.staging]|; |c.source| <= r + c.chunk
    ensures var r := |w.files[at.staging]|;
            var (w', response) := Receive(w, Request(c, r), at, r, NO_FAULTS, now);
            response == Finished(|c.source|) && Delivered(w', c, at)
  {
    var r := |w.files[at.staging]|;
    AppendKeepsPrefix(c.source, w.files[at.staging], Request(c, r).body, 0);
    assert w.files[at.staging] + Request(c, r).body == c.source;
  }

  lemma MiddleChunk(w: World, c: Client, at: Place, now: nat)
    requires Resumable(w, c, at) && c.chunk > 0
    requires at.staging in w.files
    requires var r := |w.files[at.staging]|; |c.source| > r + c.chunk
    ensures var r := |w.files[at.staging]|;
            var (w', response) := Receive(w, Request(c, r), at, r, NO_FAULTS, now);
            && response == Continue(r + c.chunk) && Resumable(w', c, at)
            && AgreedOffset(w', c, at) == r + c.chunk
  {
    var r := |w.files[at.staging]|;
    AppendKeepsPrefix(c.source, w.files[at.staging], Request(c, r).body, 0);
  }

  /** The client's request reaches this place. */
  predicate Reaches(c: Client, at: Place, maxBytes: nat) {
    && Locate(c.folder, c.name).Some?
    && at == PlaceOf(c.user, Locate(c.folder, c.name).value, c.id)
    && |c.source| <= maxBytes
  }

  /** How a server must treat one chunk: a wrong offset is corrected, a right one makes progress,
      and the last chunk delivers the file. */
  predicate ServesOne(w: World, offset: nat, c: Client, at: Place, w': World, response: Response)
    requires c.id in w.jobs
  {
    var r := AgreedOffset(w, c, at);
    if offset != r then response == ResumeFrom(r) && Resumable(w', c, at) && AgreedOffset(w', c, at) == r
    else if r + c.chunk < |c.source| then
      response == Continue(r + c.chunk) && Resumable(w', c, at) && AgreedOffset(w', c, at) == r + c.chunk
    else response.Finished? && Delivered(w', c, at)
  }

  ghost predicate Serves(server: Server, c: Client, at: Place) {
    forall w, offset: nat :: Resumable(w, c, at) && offset <= |c.source| ==>
      ServesOne(w, offset, c, at, server(w, offset).0, server(w, offset).1)
  }

  lemma ChunkAtServes(w: World, offset: nat, c: Client, at: Place, now: nat)
    requires Resumable(w, c, at) && c.chunk > 0 && offset <= |c.source| && at.target != at.staging
    ensures var (w', response) := ChunkAt(w, Request(c, offset), at, NO_FAULTS, now);
            ServesOne(w, offset, c, at, w', response)
  {
    var r := AgreedOffset(w, c, at);
    AgreedPrepare(w, c, at, offset, now);
    if offset == r {
      var p := Prepare(w, Request(c, r), at, NO_FAULTS, now);
      if r + c.chunk < |c.source| {
        MiddleChunk(p.world, c, at, now);
      } else {
        LastChunk(p.world, c, at, now);
      }
    }
  }

  /** A staging file never is its own target: its name is longer. */
  lemma StagingIsLonger(user: User, path: RelPath, id: Uuid)
    requires path != []
    ensures PlaceOf(user, path, id).target != PlaceOf(user, path, id).staging
  {
    assert |FileName(StagingPath(path, id))| > |FileName(path)|;
  }

  lemma FaultFreeServes(c: Client, at: Place, now: nat, maxBytes: nat)
    requires c.chunk > 0 && Reaches(c, at, maxBytes)
    ensures Serves(FaultFree(c, now, maxBytes), c, at)
  {
    forall w, offset: nat | Resumable(w, c, at) && offset <= |c.source|
      ensures ServesOne(w, offset, c, at, FaultFree(c, now, maxBytes)(w, offset).0, FaultFree(c, now, maxBytes)(w, offset).1)
    {
      ReachesChunkAt(w, c, at, offset, now, maxBytes);
      StagingIsLonger(c.user, Locate(c.folder, c.name).value, c.id);
      ChunkAtServes(w, offset, c, at, now);
    }
  }

  lemma ReachesChunkAt(w: World, c: Client, at: Place, offset: nat, now: nat, maxBytes: nat)
    requires Reaches(c, at, maxBytes)
    ensures Chunk(w, Request(c, offset), NO_FAULTS, now, maxBytes) == ChunkAt(w, Request(c, offset), at, NO_FAULTS, now)
  {
  }

  /** From the agreed offset the remainder takes exactly its number of chunks. */
  lemma {:induction false} DriveFromAgreedOffset(server: Server, w: World, c: Client, at: Place)
    requires Serves(server, c, at) && c.chunk > 0
    requires Resumable(w, c, at)
    ensures var r := AgreedOffset(w, c, at);
            && r <= |c.source|
            && var end := Drive(server, w, r, Chunks(|c.source| - r, c.chunk));
            end.Some? && Delivered(end.value, c, at)
    decreases |c.source| - AgreedOffset(w, c, at)
  {
    var r := AgreedOffset(w, c, at);
    var (w', response) := server(w, r);
    assert ServesOne(w, r, c, at, w', response);
    if r + c.chunk < |c.source| {
      DriveFromAgreedOffset(server, w', c, at);
    }
  }

  lemma {:induction false} DriveMonotone(server: Server, w: World, offset: nat, few: nat, many: nat)
    requires few <= many && Drive(server, w, offset, few).Some?
    ensures Drive(server, w, offset, many) == Drive(server, w, offset, few)
    decreases few
  {
    var (w', response) := server(w, offset);
    match response
    case ResumeFrom(next) => DriveMonotone(server, w', next, few - 1, many - 1);
    case Continue(next) => DriveMonotone(server, w', next, few - 1, many - 1);
    case _ =>
  }

  /** The requests a remainder is allowed: one to learn the offset, then its chunks. */
  function Allowance(rest: nat, chunk: nat): nat
    requires chunk > 0
  {
    1 + (if rest == 0 then 1 else (rest + chunk - 1) / chunk)
  }

  predicate FinishesWithin(server: Server, w: World, c: Client, at: Place, offset: nat, requests: nat) {
    var end := Drive(server, w, offset, requests);
    end.Some? && Delivered(end.value, c, at)
  }

  lemma AnyGuessFinishes(server: Server, w: World, c: Client, at: Place, offset: nat)
    requires Serves(server, c, at) && c.chunk > 0
    requires Resumable(w, c, at) && offset <= |c.source|
    ensures AgreedOffset(w, c, at) <= |c.source|
    ensures FinishesWithin(server, w, c, at, offset, Allowance(|c.source| - AgreedOffset(w, c, at), c.chunk))
  {
    var r := AgreedOffset(w, c, at);
    var chunks := Chunks(|c.source| - r, c.chunk);
    ChunksIsCeiling(|c.source| - r, c.chunk);
    if offset == r {
      DriveFromAgreedOffset(server, w, c, at);
      DriveMonotone(server, w, r, chunks, 1 + chunks);
    } else {
      LearnOffset(server, w, c, at, offset);
    }
  }

  /** A wrong guess costs one request. */
  lemma LearnOffset(server: Server, w: World, c: Client, at: Place, offset: nat)
    requires Serves(server, c, at) && c.chunk > 0
    requires Resumable(w, c, at) && offset <= |c.source| && offset != AgreedOffset(w, c, at)
    ensures var r := AgreedOffset(w, c, at);
            r <= |c.source| && FinishesWithin(server, w, c, at, offset, 1 + Chunks(|c.source| - r, c.chunk))
  {
    var (w', response) := server(w, offset);
    assert ServesOne(w, offset, c, at, w', response);
    DriveFromAgreedOffset(server, w', c, at);
  }

  /** Recovery is always possible. Whatever offset the client guesses first, it finishes in at most
      one request to learn the offset plus the chunks of the remainder, and the source arrives whole.
      This includes jobs marked failed by a cancel or by a failed rename. */
  lemma RecoveryAlwaysPossible(w: World, c: Client, at: Place, offset: nat, now: nat, maxBytes: nat)
    requires Resumable(w, c, at) && c.chunk > 0 && offset <= |c.source|
    ensures AgreedOffset(w, c, at) <= |c.source|
    ensures Reaches(c, at, maxBytes) ==>
              FinishesWithin(FaultFree(c, now, maxBytes), w, c, at, offset,
                             Allowance(|c.source| - AgreedOffset(w, c, at), c.chunk))
  {
    if Reaches(c, at, maxBytes) {
      FaultFreeServes(c, at, now, maxBytes);
      AnyGuessFinishes(FaultFree(c, now, maxBytes), w, c, at, offset);
    }
  }

  /** The states a run reaches meet the condition above, so every unfinished job of every run
      of honest clients can be finished. */
  lemma ReachableJobsAreResumable(steps: seq<Step>, maxBytes: nat, src: Sources, c: Client, path: RelPath)
    requires AllHonest(steps, src) && src(c.user, c.id) == c.source && Locate(c.folder, c.name) == Some(path)
    requires var w := Run(EMPTY, steps, maxBytes);
             && c.id in w.jobs && w.jobs[c.id].user == c.user && w.jobs[c.id].status != Completed
             && w.jobs[c.id].path == StoredText(path) && w.jobs[c.id].total == Some(|c.source|)
    ensures Resumable(Run(EMPTY, steps, maxBytes), c, PlaceOf(c.user, path, c.id))
  {
    RunKeepsPrefixes(EMPTY, steps, maxBytes, src);
    FileNameIsNormal(c.name);
    StagedSource(c.user, path, c.id, src);
  }

  /** A client that starts past the end of its source gets nowhere: that request is refused and changes nothing. */
  lemma GuessPastEndIsRefused(w: World, c: Client, at: Place, offset: nat, now: nat)
    requires Resumable(w, c, at) && offset > |c.source|
    ensures ChunkAt(w, Request(c, offset), at, NO_FAULTS, now) == (w, Rejected(BadRequest))
  {
  }
}
