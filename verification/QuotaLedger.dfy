/** The ledger that bounds the storage quota over runs (server/src/handlers/upload.rs).

    A file may outlive the row that paid for it, and a row whose commit was lost may be paid for twice by its
    own declaration. What bounds the usage is a ledger: one amount per stored path text, raised whenever a row
    is opened for that text. */
module QuotaLedger {
  import opened Prelude
  import opened Paths
  import opened StagingNames
  import opened UploadModel
  import opened UploadNoHoles
  import opened UploadCompletion
  import opened Sums
  import opened Quota

  /** The most any row opened for a text declared. */
  type Ledger = map<string, nat>

  /** The stored text of the files that have one of their own. */
  type Texts = FileKey -> Option<string>

  /** The paths that the account's chunk uploads go to. */
  type Targets = RelPath -> bool

  /** No two of them are stored as one text. */
  ghost predicate OneTextEach(targets: Targets) {
    forall a, b :: targets(a) && targets(b) && StoredText(a) == StoredText(b) ==> a == b
  }

  function TextsOf(user: User, targets: Targets): Texts {
    (key: FileKey) => if key.user == user && targets(key.path) then Some(StoredText(key.path)) else None
  }

  ghost predicate Distinct(texts: Texts) {
    forall k, l :: texts(k).Some? && texts(k) == texts(l) ==> k == l
  }

  lemma TextsAreDistinct(user: User, targets: Targets)
    requires OneTextEach(targets)
    ensures Distinct(TextsOf(user, targets))
  {
    var texts := TextsOf(user, targets);
    forall k, l | texts(k).Some? && texts(k) == texts(l) ensures k == l {
      assert targets(k.path) && targets(l.path);
    }
  }

  lemma PlainPathsHaveOneTextEach()
    ensures OneTextEach(PlainPath)
  {
    forall a, b | PlainPath(a) && PlainPath(b) && StoredText(a) == StoredText(b) ensures a == b {
      StoredTextInjective(a, b);
    }
  }

  function Raise(ledger: Ledger, text: string, total: nat): Ledger {
    ledger[text := if Get(ledger, text) >= total then Get(ledger, text) else total]
  }

  lemma RaiseCosts(ledger: Ledger, text: string, total: nat)
    ensures Sum(Raise(ledger, text, total)) <= Sum(ledger) + total
    ensures forall t :: t in ledger ==> t in Raise(ledger, text, total) && ledger[t] <= Raise(ledger, text, total)[t]
  {
    var raised := Raise(ledger, text, total);
    assert raised - {text} == ledger - {text};
    SumDiffersAt(raised, ledger, text);
  }

  // ------------------------------------------------------------ the invariant

  /** A counted file is no larger than at the start, or the ledger pays for it. */
  predicate Paid(base: map<FileKey, Bytes>, texts: Texts, ledger: Ledger, key: FileKey, size: nat) {
    || (key in base && size <= |base[key]|)
    || (texts(key).Some? && texts(key).value in ledger && size <= ledger[texts(key).value])
  }

  /** An active row can still place no more than the ledger pays for. */
  predicate Covers(ledger: Ledger, job: Job) {
    job.total.Some? ==> job.path in ledger && job.total.value <= ledger[job.path]
  }

  ghost predicate Accounted(base: map<FileKey, Bytes>, w: World, user: User, counted: Counted, texts: Texts, ledger: Ledger) {
    && (forall k :: k in w.files && counted(k) ==> Paid(base, texts, ledger, k, |w.files[k]|))
    && (forall id :: id in w.jobs && Active(w.jobs[id], user) ==> Covers(ledger, w.jobs[id]))
  }

  /** What is accounted for bounds the usage. */
  lemma AccountedBounds(base: map<FileKey, Bytes>, w: World, user: User, counted: Counted, texts: Texts, ledger: Ledger)
    requires Accounted(base, w, user, counted, texts, ledger) && Distinct(texts)
    ensures Used(w, counted) <= Sum(Sizes(base, counted)) + Sum(ledger)
  {
    var sizes := Sizes(w.files, counted);
    var kept := map k | k in sizes && k in base && sizes[k] <= |base[k]| :: sizes[k];
    var placed := map k | k in sizes && k !in kept :: sizes[k];
    SumDisjoint(sizes, kept, placed);
    SumMonotone(kept, Sizes(base, counted));
    var textOf := (k: FileKey) => if texts(k).Some? then texts(k).value else "";
    forall k | k in placed ensures texts(k).Some? && textOf(k) in ledger && placed[k] <= ledger[textOf(k)] {
      assert Paid(base, texts, ledger, k, |w.files[k]|);
    }
    SumInjected(placed, ledger, textOf);
  }

  /** A ledger that pays for every active row costs no more than the rows declare. */
  lemma {:induction false} OpeningLedger(declared: map<Uuid, nat>, texts: map<Uuid, string>) returns (ledger: Ledger)
    requires declared.Keys == texts.Keys
    ensures forall id :: id in declared ==> texts[id] in ledger && declared[id] <= ledger[texts[id]]
    ensures Sum(ledger) <= Sum(declared)
    decreases |declared|
  {
    if declared == map[] {
      ledger := map[];
    } else {
      var id :| id in declared;
      var rest := OpeningLedger(declared - {id}, texts - {id});
      RaiseCosts(rest, texts[id], declared[id]);
      SumTake(declared, id);
      ledger := Raise(rest, texts[id], declared[id]);
      forall other | other in declared ensures texts[other] in ledger && declared[other] <= ledger[texts[other]] {
        if other != id {
          assert other in declared - {id} && (texts - {id})[other] == texts[other];
        }
      }
    }
  }

  lemma AccountedAtFirst(w: World, user: User, counted: Counted, texts: Texts) returns (ledger: Ledger)
    ensures Accounted(w.files, w, user, counted, texts, ledger)
    ensures Sum(ledger) <= Sum(Declarations(w, user))
  {
    var paths := map id | id in Declarations(w, user) :: w.jobs[id].path;
    ledger := OpeningLedger(Declarations(w, user), paths);
    forall id | id in w.jobs && Active(w.jobs[id], user) ensures Covers(ledger, w.jobs[id]) {
      assert id in Declarations(w, user) && paths[id] == w.jobs[id].path;
    }
  }

  // ------------------------------------------------------------ steps

  /** A chunk request that opens a row for the account, or reopens a failed one. */
  predicate Opens(w: World, q: ChunkRequest, user: User) {
    q.user == user && !(q.id in w.jobs && (w.jobs[q.id].user != user || w.jobs[q.id].status != Failed))
  }

  function LedgerAfter(w: World, q: ChunkRequest, at: Place, user: User, ledger: Ledger): Ledger {
    if Opens(w, q, user) then Raise(ledger, at.text, q.total) else ledger
  }

  /** The checks a chunk passed before it wrote: its row, if there was one, is the caller's and matches. */
  predicate Passed(w: World, q: ChunkRequest, at: Place) {
    q.id in w.jobs ==>
      && w.jobs[q.id].user == q.user && w.jobs[q.id].status != Completed
      && w.jobs[q.id].path == at.text && w.jobs[q.id].total == Some(q.total)
  }

  lemma ProceedPassed(w: World, q: ChunkRequest, at: Place, f: ChunkFaults, now: nat)
    requires Prepare(w, q, at, f, now).Proceed?
    ensures Passed(w, q, at)
  {
  }

  /** How the row of a chunk's id can be afterwards, whatever failed. */
  predicate RowKept(w: World, job: Job, q: ChunkRequest, at: Place, user: User) {
    || (q.id in w.jobs && Active(w.jobs[q.id], user) && job.path == w.jobs[q.id].path && job.total == w.jobs[q.id].total)
    || (Opens(w, q, user) && job.path == at.text && job.total == Some(q.total))
  }

  lemma PrepareKeepsRow(w: World, q: ChunkRequest, at: Place, f: ChunkFaults, now: nat, user: User)
    ensures var w' := Prepare(w, q, at, f, now).world;
            q.id in w'.jobs && Active(w'.jobs[q.id], user) ==> RowKept(w, w'.jobs[q.id], q, at, user)
  {
  }

  lemma ReceiveKeepsRow(w: World, q: ChunkRequest, at: Place, received: nat, f: ChunkFaults, now: nat)
    requires q.id in w.jobs && at.staging in w.files
    ensures var w' := Receive(w, q, at, received, f, now).0;
            && q.id in w'.jobs && w'.jobs[q.id].user == w.jobs[q.id].user
            && w'.jobs[q.id].path == w.jobs[q.id].path && w'.jobs[q.id].total == w.jobs[q.id].total
  {
  }

  /** What a chunk may have put at its target: nothing new, or a file of exactly its total. */
  lemma PlacedSize(w: World, q: ChunkRequest, at: Place, received: nat, f: ChunkFaults, now: nat)
    requires q.id in w.jobs && at.staging in w.files && at.target != at.staging
    requires q.offset == received == |w.files[at.staging]|
    ensures var w' := Receive(w, q, at, received, f, now).0;
            at.target in w'.files ==>
              (at.target in w.files && w'.files[at.target] == w.files[at.target]) || |w'.files[at.target]| == q.total
  {
  }

  lemma PreparedRowKept(w: World, q: ChunkRequest, at: Place, f: ChunkFaults, now: nat, user: User)
    requires Prepare(w, q, at, f, now).Proceed? && q.user == user
    ensures var w' := Prepare(w, q, at, f, now).world;
            q.id in w'.jobs && w'.jobs[q.id].path == at.text && w'.jobs[q.id].total == Some(q.total) && w'.jobs[q.id].user == user
    ensures Opens(w, q, user) || (q.id in w.jobs && Active(w.jobs[q.id], user))
  {
  }

  lemma ChunkKeepsRow(w: World, q: ChunkRequest, at: Place, f: ChunkFaults, now: nat, user: User)
    ensures var w' := ChunkAt(w, q, at, f, now).0;
            q.id in w'.jobs && Active(w'.jobs[q.id], user) ==> RowKept(w, w'.jobs[q.id], q, at, user)
  {
    PrepareKeepsRow(w, q, at, f, now, user);
    var p := Prepare(w, q, at, f, now);
    if p.Proceed? {
      PrepareIsExact(w, q, at, f, now);
      ReceiveKeepsRow(p.world, q, at, p.received, f, now);
      PrepareJobs(w, q, at, f, now);
      ProceedPassed(w, q, at, f, now);
      PrepareIsUnfinished(w, q, at, f, now);
      if q.user == user {
        PreparedRowKept(w, q, at, f, now, user);
      }
    }
  }

  lemma ChunkPlaces(w: World, q: ChunkRequest, at: Place, f: ChunkFaults, now: nat)
    requires at.target != at.staging
    ensures var w' := ChunkAt(w, q, at, f, now).0;
            at.target in w'.files ==>
              || (at.target in w.files && w'.files[at.target] == w.files[at.target])
              || (|w'.files[at.target]| == q.total && Prepare(w, q, at, f, now).Proceed?)
  {
    var p := Prepare(w, q, at, f, now);
    PrepareFiles(w, q, at, f, now);
    if p.Proceed? {
      PrepareIsExact(w, q, at, f, now);
      PlacedSize(p.world, q, at, p.received, f, now);
    }
  }

  /** The ledger after the step pays for the place a chunk of the account may fill. */
  lemma LedgerPays(base: map<FileKey, Bytes>, w: World, q: ChunkRequest, at: Place, f: ChunkFaults, now: nat,
                   user: User, counted: Counted, texts: Texts, ledger: Ledger)
    requires Accounted(base, w, user, counted, texts, ledger) && q.user == user
    requires Prepare(w, q, at, f, now).Proceed?
    ensures at.text in LedgerAfter(w, q, at, user, ledger) && q.total <= LedgerAfter(w, q, at, user, ledger)[at.text]
  {
    ProceedPassed(w, q, at, f, now);
    PreparedRowKept(w, q, at, f, now, user);
    if !Opens(w, q, user) {
      assert Covers(ledger, w.jobs[q.id]);
    }
  }

  lemma ChunkFilesPaid(base: map<FileKey, Bytes>, w: World, q: ChunkRequest, at: Place, f: ChunkFaults, now: nat,
                       user: User, counted: Counted, texts: Texts, ledger: Ledger, k: FileKey)
    requires Accounted(base, w, user, counted, texts, ledger)
    requires !counted(at.staging) && at.target != at.staging && (q.user != user ==> !counted(at.target))
    requires q.user == user ==> texts(at.target) == Some(at.text)
    requires k in ChunkAt(w, q, at, f, now).0.files && counted(k)
    ensures Paid(base, texts, LedgerAfter(w, q, at, user, ledger), k, |ChunkAt(w, q, at, f, now).0.files[k]|)
  {
    ChunkFrame(w, q, at, f, now);
    ChunkPlaces(w, q, at, f, now);
    RaiseCosts(ledger, at.text, q.total);
    if k in w.files {
      assert Paid(base, texts, ledger, k, |w.files[k]|);
    }
    if k == at.target && Prepare(w, q, at, f, now).Proceed? {
      LedgerPays(base, w, q, at, f, now, user, counted, texts, ledger);
    }
  }

  lemma ChunkRowsCovered(base: map<FileKey, Bytes>, w: World, q: ChunkRequest, at: Place, f: ChunkFaults, now: nat,
                         user: User, counted: Counted, texts: Texts, ledger: Ledger, id: Uuid)
    requires Accounted(base, w, user, counted, texts, ledger)
    requires id in ChunkAt(w, q, at, f, now).0.jobs && Active(ChunkAt(w, q, at, f, now).0.jobs[id], user)
    ensures Covers(LedgerAfter(w, q, at, user, ledger), ChunkAt(w, q, at, f, now).0.jobs[id])
  {
    ChunkFrame(w, q, at, f, now);
    ChunkKeepsRow(w, q, at, f, now, user);
    RaiseCosts(ledger, at.text, q.total);
    if id in w.jobs && Active(w.jobs[id], user) {
      assert Covers(ledger, w.jobs[id]);
    }
  }

  lemma ChunkAccounts(base: map<FileKey, Bytes>, w: World, q: ChunkRequest, at: Place, f: ChunkFaults, now: nat,
                      user: User, counted: Counted, texts: Texts, ledger: Ledger)
    requires Accounted(base, w, user, counted, texts, ledger)
    requires !counted(at.staging) && at.target != at.staging && (q.user != user ==> !counted(at.target))
    requires q.user == user ==> texts(at.target) == Some(at.text)
    ensures Accounted(base, ChunkAt(w, q, at, f, now).0, user, counted, texts, LedgerAfter(w, q, at, user, ledger))
  {
    var w' := ChunkAt(w, q, at, f, now).0;
    var ledger' := LedgerAfter(w, q, at, user, ledger);
    forall k | k in w'.files && counted(k) ensures Paid(base, texts, ledger', k, |w'.files[k]|) {
      ChunkFilesPaid(base, w, q, at, f, now, user, counted, texts, ledger, k);
    }
    forall id | id in w'.jobs && Active(w'.jobs[id], user) ensures Covers(ledger', w'.jobs[id]) {
      ChunkRowsCovered(base, w, q, at, f, now, user, counted, texts, ledger, id);
    }
  }

  /** Steps that only shrink counted files and only close rows need no entry. */
  lemma ShrinkingAccounts(base: map<FileKey, Bytes>, a: World, b: World, user: User, counted: Counted, texts: Texts, ledger: Ledger)
    requires Accounted(base, a, user, counted, texts, ledger)
    requires forall k :: k in b.files && counted(k) ==> k in a.files && |b.files[k]| <= |a.files[k]|
    requires forall id :: id in b.jobs && Active(b.jobs[id], user) ==>
               id in a.jobs && Active(a.jobs[id], user) && b.jobs[id].path == a.jobs[id].path && b.jobs[id].total == a.jobs[id].total
    ensures Accounted(base, b, user, counted, texts, ledger)
  {
    forall k | k in b.files && counted(k) ensures Paid(base, texts, ledger, k, |b.files[k]|) {
      assert Paid(base, texts, ledger, k, |a.files[k]|);
    }
    forall id | id in b.jobs && Active(b.jobs[id], user) ensures Covers(ledger, b.jobs[id]) {
      assert Covers(ledger, a.jobs[id]);
    }
  }
}
