/** Binding a sync request to a device row (server/src/handlers/sync.rs), one database operation at a time.
    Requests overlap: any operation of one may fall between two operations of another. */
module SyncDevices {
  import opened Prelude

  type Id = nat
  type Account = nat

  datatype Device = Device(user: Account, name: string, platform: Option<string>, lastSeen: nat)

  type Table = map<Id, Device>

  datatype Request = Request(user: Account, requested: Option<Id>, name: string, platform: Option<string>)

  datatype Link = Refresh(id: Id) | Adopt(id: Id) | AdoptExisting(id: Id) | Mint

  /** `plan_device_link`. */
  function PlanDeviceLink(requested: Option<Id>, requestedOwner: Option<Account>, caller: Account,
                          sameNamePlatform: Option<Id>): Link {
    match requested
    case Some(id) => (
      match requestedOwner
      case Some(owner) => if owner == caller then Refresh(id) else Mint
      case None => Adopt(id))
    case None => (
      match sameNamePlatform
      case Some(id) => AdoptExisting(id)
      case None => Mint)
  }

  // ------------------------------------------------------------ single operations

  function OwnerOf(table: Table, requested: Option<Id>): Option<Account> {
    if requested.Some? && requested.value in table then Some(table[requested.value].user) else None
  }

  predicate Matches(table: Table, q: Request, id: Id) {
    id in table && table[id].user == q.user && table[id].name == q.name && table[id].platform == q.platform
  }

  /** What the query for a row with this name and platform may return. */
  predicate NewestMatch(table: Table, q: Request, pick: Option<Id>) {
    match pick
    case None => forall id :: id in table ==> !Matches(table, q, id)
    case Some(best) => Matches(table, q, best)
                       && forall id :: id in table && Matches(table, q, id) ==> table[id].lastSeen <= table[best].lastSeen
  }

  function Inserted(table: Table, q: Request, id: Id, now: nat): Table {
    table[id := Device(q.user, q.name, q.platform, now)]
  }

  /** The refresh names both the id and the account, so it may hit no row at all. */
  function Touched(table: Table, q: Request, id: Id, now: nat): Table {
    if id in table && table[id].user == q.user then
      table[id := Device(q.user, q.name, if q.platform.Some? then q.platform else table[id].platform, now)]
    else table
  }

  // ------------------------------------------------------------ overlapping requests

  datatype Phase = Waiting | Planned(link: Link) | Touching(id: Id) | Answered(answer: Result<Id, ()>)

  datatype World = World(table: Table, phases: seq<Phase>)

  /** `pick` is the row the name query returns, `minted` the fresh id of this request. */
  datatype Step =
    | Advance(i: nat, pick: Option<Id>, minted: Id, outcome: Outcome, now: nat)
    | Delete(user: Account, id: Id)
    | Rename(user: Account, id: Id, name: string)

  /** The next database operation of one request. */
  function AdvanceOne(q: Request, table: Table, phase: Phase, pick: Option<Id>, minted: Id, outcome: Outcome, now: nat)
    : (Table, Phase)
  {
    match phase
    case Waiting =>
      if !outcome.Done? then (table, Answered(Err(())))
      else (table, Planned(PlanDeviceLink(q.requested, OwnerOf(table, q.requested), q.user,
                                          if q.requested.None? then pick else None)))
    case Planned(Refresh(id)) => Refreshing(q, table, id, outcome, now)
    case Planned(AdoptExisting(id)) => Refreshing(q, table, id, outcome, now)
    case Planned(Adopt(id)) =>
      if id in table then (table, if outcome.Done? then Touching(id) else Answered(Err(())))
      else Inserting(q, table, id, outcome, now)
    case Planned(Mint) =>
      if minted in table then (table, Answered(Err(())))
      else Inserting(q, table, minted, outcome, now)
    case Touching(id) => Refreshing(q, table, id, outcome, now)
    case Answered(_) => (table, phase)
  }

  function Refreshing(q: Request, table: Table, id: Id, outcome: Outcome, now: nat): (Table, Phase) {
    (if outcome.TakesEffect() then Touched(table, q, id, now) else table,
     Answered(if outcome.Done? then Ok(id) else Err(())))
  }

  function Inserting(q: Request, table: Table, id: Id, outcome: Outcome, now: nat): (Table, Phase) {
    (if outcome.TakesEffect() then Inserted(table, q, id, now) else table,
     Answered(if outcome.Done? then Ok(id) else Err(())))
  }

  function Apply(qs: seq<Request>, w: World, s: Step): (w': World)
    requires |w.phases| == |qs|
    ensures |w'.phases| == |qs|
  {
    match s
    case Advance(i, pick, minted, outcome, now) =>
      if i >= |qs| then w
      else
        var (table, phase) := AdvanceOne(qs[i], w.table, w.phases[i], pick, minted, outcome, now);
        World(table, w.phases[i := phase])
    case Delete(user, id) =>
      if id in w.table && w.table[id].user == user then w.(table := w.table - {id}) else w
    case Rename(user, id, name) =>
      if id in w.table && w.table[id].user == user then w.(table := w.table[id := w.table[id].(name := name)]) else w
  }

  function Run(qs: seq<Request>, w: World, steps: seq<Step>): (w': World)
    requires |w.phases| == |qs|
    ensures |w'.phases| == |qs|
    decreases steps
  {
    if steps == [] then w else Run(qs, Apply(qs, w, steps[0]), steps[1..])
  }

  // ------------------------------------------------------------ ownership

  function Actor(qs: seq<Request>, s: Step): Option<Account> {
    match s
    case Advance(i, _, _, _, _) => if i < |qs| then Some(qs[i].user) else None
    case Delete(user, _) => Some(user)
    case Rename(user, _, _) => Some(user)
  }

  /** No operation changes, removes or takes over a row of another account. */
  lemma OthersRowsAreSafe(qs: seq<Request>, w: World, s: Step, id: Id)
    requires |w.phases| == |qs| && id in w.table && Actor(qs, s) != Some(w.table[id].user)
    ensures id in Apply(qs, w, s).table && Apply(qs, w, s).table[id] == w.table[id]
  {
  }

  /** Over a whole run, what the other accounts do cannot touch an account's rows. */
  lemma {:induction false} RowsSurviveOthers(qs: seq<Request>, w: World, steps: seq<Step>, id: Id)
    requires |w.phases| == |qs| && id in w.table
    requires forall k :: 0 <= k < |steps| ==> Actor(qs, steps[k]) != Some(w.table[id].user)
    ensures id in Run(qs, w, steps).table && Run(qs, w, steps).table[id] == w.table[id]
    decreases steps
  {
    if steps != [] {
      OthersRowsAreSafe(qs, w, steps[0], id);
      RowsSurviveOthers(qs, Apply(qs, w, steps[0]), steps[1..], id);
    }
  }

  /** A row never changes hands while it exists. */
  lemma OwnerIsFixed(qs: seq<Request>, w: World, s: Step, id: Id)
    requires |w.phases| == |qs| && id in w.table && id in Apply(qs, w, s).table
    ensures Apply(qs, w, s).table[id].user == w.table[id].user
  {
  }

  /** A rename or a removal by the owner does what it says, and by anybody else nothing. */
  lemma OwnerDecides(qs: seq<Request>, w: World, user: Account, id: Id, name: string)
    requires |w.phases| == |qs| && id in w.table
    ensures var own := w.table[id].user == user;
            var renamed, removed := Apply(qs, w, Rename(user, id, name)).table, Apply(qs, w, Delete(user, id)).table;
            && (if own then id !in removed && removed.Keys == w.table.Keys - {id} else removed == w.table)
            && renamed.Keys == w.table.Keys && renamed[id].lastSeen == w.table[id].lastSeen
            && renamed[id].platform == w.table[id].platform
            && renamed[id].name == (if own then name else w.table[id].name)
            && forall other :: other in w.table && other != id ==> renamed[other] == w.table[other] && other in removed
                                                                   && removed[other] == w.table[other]
  {
  }

  /** What a request leaves in the table when it is answered: its own row with its name, seen now; a platform it does not tell
      stays as it was. */
  lemma AnsweredRowIsCurrent(q: Request, table: Table, phase: Phase, pick: Option<Id>, minted: Id, now: nat)
    requires !phase.Answered?
    ensures var (table', phase') := AdvanceOne(q, table, phase, pick, minted, Done, now);
            phase'.Answered? && phase'.answer.Ok? ==>
              var id := phase'.answer.value;
              id in table' && table'[id].user == q.user ==>
                && table'[id].name == q.name && table'[id].lastSeen == now
                && table'[id].platform == (if q.platform.Some? || id !in table then q.platform else table[id].platform)
  {
  }

  // ------------------------------------------------------------ convergence

  /** Only `user` asks for `id`. */
  predicate Claims(qs: seq<Request>, user: Account, id: Id) {
    forall i :: 0 <= i < |qs| && qs[i].requested == Some(id) ==> qs[i].user == user
  }

  /** Nobody deletes the row, and no fresh id is this one. */
  predicate Leaves(s: Step, id: Id) {
    match s
    case Advance(_, _, minted, _, _) => minted != id
    case Delete(_, other) => other != id
    case Rename(_, _, _) => true
  }

  /** Where a request for a free id can be. */
  predicate OnTrack(table: Table, phase: Phase, id: Id) {
    match phase
    case Waiting => true
    case Planned(link) => link == Adopt(id) || (link == Refresh(id) && id in table)
    case Touching(other) => other == id && id in table
    case Answered(answer) => answer.Ok? ==> answer.value == id && id in table
  }

  /** A request that adopts a row by its name has that row, or one it had, in view. */
  predicate Elsewhere(phase: Phase, id: Id) {
    phase.Planned? ==> phase.link != Adopt(id)
  }

  ghost predicate Converging(qs: seq<Request>, w: World, user: Account, id: Id) {
    && |w.phases| == |qs|
    && (id in w.table ==> w.table[id].user == user)
    && (forall i :: 0 <= i < |qs| ==>
          if qs[i].requested == Some(id) then OnTrack(w.table, w.phases[i], id) else Elsewhere(w.phases[i], id))
  }

  lemma AdvanceConverges(q: Request, table: Table, phase: Phase, s: Step, user: Account, id: Id)
    requires s.Advance? && Leaves(s, id) && (q.requested == Some(id) ==> q.user == user)
    requires id in table ==> table[id].user == user
    requires if q.requested == Some(id) then OnTrack(table, phase, id) else Elsewhere(phase, id)
    ensures var (table', phase') := AdvanceOne(q, table, phase, s.pick, s.minted, s.outcome, s.now);
            && (id in table ==> id in table')
            && (id in table' ==> table'[id].user == user)
            && (if q.requested == Some(id) then OnTrack(table', phase', id) else Elsewhere(phase', id))
  {
  }

  lemma StepConverges(qs: seq<Request>, w: World, s: Step, user: Account, id: Id)
    requires Claims(qs, user, id) && Leaves(s, id) && Converging(qs, w, user, id)
    ensures Converging(qs, Apply(qs, w, s), user, id)
    ensures id in w.table ==> id in Apply(qs, w, s).table
  {
    if s.Advance? && s.i < |qs| {
      AdvanceConverges(qs[s.i], w.table, w.phases[s.i], s, user, id);
    }
  }

  lemma {:induction false} RunConverges(qs: seq<Request>, w: World, steps: seq<Step>, user: Account, id: Id)
    requires Claims(qs, user, id) && Converging(qs, w, user, id)
    requires forall k :: 0 <= k < |steps| ==> Leaves(steps[k], id)
    ensures Converging(qs, Run(qs, w, steps), user, id)
    decreases steps
  {
    if steps != [] {
      StepConverges(qs, w, steps[0], user, id);
      RunConverges(qs, Apply(qs, w, steps[0]), steps[1..], user, id);
    }
  }

  predicate Succeeded(phase: Phase) {
    phase.Answered? && phase.answer.Ok?
  }

  /** No request has begun. */
  function AtFirst(qs: seq<Request>, table: Table): (w: World)
    ensures |w.phases| == |qs|
  {
    World(table, seq(|qs|, _ => Waiting))
  }

  lemma ConvergesAtFirst(qs: seq<Request>, table: Table, user: Account, id: Id)
    requires id !in table
    ensures Converging(qs, AtFirst(qs, table), user, id)
  {
  }

  lemma ConvergedAnswer(qs: seq<Request>, w: World, user: Account, id: Id, i: nat)
    requires Converging(qs, w, user, id) && i < |qs| && qs[i].requested == Some(id) && Succeeded(w.phases[i])
    ensures w.phases[i].answer == Ok(id) && id in w.table && w.table[id].user == user
  {
    assert OnTrack(w.table, w.phases[i], id);
  }

  /** Overlapping first syncs of one machine: however their operations interleave, and whatever other
      requests do meanwhile, every request of this account that succeeds answers the id it sent, and that
      id is a row of this account. */
  lemma OverlappingRequestsConverge(qs: seq<Request>, table: Table, steps: seq<Step>, user: Account, id: Id)
    requires id !in table && Claims(qs, user, id)
    requires forall k :: 0 <= k < |steps| ==> Leaves(steps[k], id)
    ensures var w := Run(qs, AtFirst(qs, table), steps);
            forall i :: 0 <= i < |qs| && qs[i].requested == Some(id) && Succeeded(w.phases[i]) ==>
                             w.phases[i].answer == Ok(id) && id in w.table && w.table[id].user == user
  {
    ConvergesAtFirst(qs, table, user, id);
    RunConverges(qs, AtFirst(qs, table), steps, user, id);
    var w := Run(qs, AtFirst(qs, table), steps);
    forall i | 0 <= i < |qs| && qs[i].requested == Some(id) && Succeeded(w.phases[i])
      ensures w.phases[i].answer == Ok(id) && id in w.table && w.table[id].user == user
    {
      ConvergedAnswer(qs, w, user, id, i);
    }
  }

  // ------------------------------------------------------------ one machine, one row

  /** What one operation of a request can add to the table. */
  predicate MayAdd(q: Request, s: Step, k: Id)
    requires s.Advance?
  {
    k == s.minted || q.requested == Some(k)
  }

  /** A row that some request other than those for `id` has added. */
  ghost predicate FromOther(qs: seq<Request>, steps: seq<Step>, id: Id, k: Id) {
    exists m :: 0 <= m < |steps| && AddedElsewhere(qs, steps[m], id, k)
  }

  predicate AddedElsewhere(qs: seq<Request>, s: Step, id: Id, k: Id) {
    s.Advance? && s.i < |qs| && qs[s.i].requested != Some(id) && MayAdd(qs[s.i], s, k)
  }

  /** A request with an id of its own never inserts any other id than that or its minted one. */
  predicate OwnPlan(q: Request, phase: Phase) {
    phase.Planned? && phase.link.Adopt? ==> q.requested == Some(phase.link.id)
  }

  ghost predicate OwnPlans(qs: seq<Request>, w: World) {
    |w.phases| == |qs| && forall i :: 0 <= i < |qs| ==> OwnPlan(qs[i], w.phases[i])
  }

  lemma StepAddsRows(qs: seq<Request>, w: World, s: Step, user: Account, id: Id, k: Id)
    requires Claims(qs, user, id) && Leaves(s, id) && Converging(qs, w, user, id) && OwnPlans(qs, w)
    requires k != id && k !in w.table && k in Apply(qs, w, s).table
    ensures AddedElsewhere(qs, s, id, k)
  {
    assert OwnPlan(qs[s.i], w.phases[s.i]);
    assert qs[s.i].requested == Some(id) ==> OnTrack(w.table, w.phases[s.i], id);
  }

  lemma StepKeepsPlans(qs: seq<Request>, w: World, s: Step)
    requires OwnPlans(qs, w)
    ensures OwnPlans(qs, Apply(qs, w, s))
  {
  }

  /** In every run, with renames, failing operations, deletions of other rows and unrelated requests, each new row other than
      `id` was added by a request that does not ask for `id`. */
  lemma {:induction false} NewRowsAreOthers(qs: seq<Request>, w: World, steps: seq<Step>, user: Account, id: Id, k: Id)
    requires Claims(qs, user, id) && Converging(qs, w, user, id) && OwnPlans(qs, w)
    requires forall m :: 0 <= m < |steps| ==> Leaves(steps[m], id)
    requires k != id && k !in w.table && k in Run(qs, w, steps).table
    ensures FromOther(qs, steps, id, k)
    decreases steps
  {
    if steps != [] {
      var w1 := Apply(qs, w, steps[0]);
      if k in w1.table {
        StepAddsRows(qs, w, steps[0], user, id, k);
        assert AddedElsewhere(qs, steps[0], id, k);
      } else {
        StepConverges(qs, w, steps[0], user, id);
        StepKeepsPlans(qs, w, steps[0]);
        NewRowsAreOthers(qs, w1, steps[1..], user, id, k);
        var m :| 0 <= m < |steps[1..]| && AddedElsewhere(qs, steps[1..][m], id, k);
        assert steps[m + 1] == steps[1..][m];
      }
    }
  }

  /** Any number of overlapping requests of one machine for one free id, in any run in which nobody else asks for that id or
      deletes it: each that succeeds answers the id, which is a row of its account, and every other new row was added by
      a request that does not ask for the id. */
  lemma OneMachineOneRow(qs: seq<Request>, table: Table, steps: seq<Step>, user: Account, id: Id)
    requires id !in table && Claims(qs, user, id)
    requires forall k :: 0 <= k < |steps| ==> Leaves(steps[k], id)
    ensures var w := Run(qs, AtFirst(qs, table), steps);
            && (forall i :: 0 <= i < |qs| && qs[i].requested == Some(id) && Succeeded(w.phases[i]) ==>
                              w.phases[i].answer == Ok(id) && id in w.table && w.table[id].user == user)
            && (forall k :: k in w.table && k !in table && k != id ==> FromOther(qs, steps, id, k))
  {
    OverlappingRequestsConverge(qs, table, steps, user, id);
    StartIsClean(qs, table, user, id);
    forall k | k in Run(qs, AtFirst(qs, table), steps).table && k !in table && k != id
      ensures FromOther(qs, steps, id, k)
    {
      NewRowsAreOthers(qs, AtFirst(qs, table), steps, user, id, k);
    }
  }

  lemma StartIsClean(qs: seq<Request>, table: Table, user: Account, id: Id)
    requires id !in table
    ensures Converging(qs, AtFirst(qs, table), user, id)
    ensures OwnPlans(qs, AtFirst(qs, table))
  {
    ConvergesAtFirst(qs, table, user, id);
  }

  /** When all requests are for that id, there is at most the one new row. */
  lemma OnlyOneRow(qs: seq<Request>, table: Table, steps: seq<Step>, user: Account, id: Id)
    requires id !in table && Claims(qs, user, id) && forall i :: 0 <= i < |qs| ==> qs[i].requested == Some(id)
    requires forall k :: 0 <= k < |steps| ==> Leaves(steps[k], id)
    ensures Run(qs, AtFirst(qs, table), steps).table.Keys <= table.Keys + {id}
  {
    OneMachineOneRow(qs, table, steps, user, id);
  }

  /** And without failing operations none of them fails. */
  lemma {:induction false} SmoothRequestsSucceed(qs: seq<Request>, w: World, steps: seq<Step>, user: Account, id: Id, i: nat)
    requires i < |qs| && qs[i].requested == Some(id) && Claims(qs, user, id) && Converging(qs, w, user, id)
    requires forall k :: 0 <= k < |steps| ==> Leaves(steps[k], id)
    requires forall k :: 0 <= k < |steps| && steps[k].Advance? && steps[k].i == i ==> steps[k].outcome.Done?
    requires w.phases[i].Answered? ==> w.phases[i].answer.Ok?
    ensures var w' := Run(qs, w, steps); (w'.phases[i].Answered? ==> w'.phases[i].answer == Ok(id))
    decreases steps
  {
    if steps != [] {
      StepConverges(qs, w, steps[0], user, id);
      assert OnTrack(w.table, w.phases[i], id);
      SmoothRequestsSucceed(qs, Apply(qs, w, steps[0]), steps[1..], user, id, i);
    } else {
      assert OnTrack(w.table, w.phases[i], id);
    }
  }

  // ------------------------------------------------------------ what the answer does not promise

  /** This step puts a row with this id into the table. */
  predicate InsertsAt(qs: seq<Request>, w: World, s: Step, id: Id)
    requires |w.phases| == |qs|
  {
    id !in w.table && id in Apply(qs, w, s).table
  }

  /** Some request of another account inserts the id in the course of these steps. */
  ghost predicate TakenMeanwhile(qs: seq<Request>, w: World, steps: seq<Step>, user: Account, id: Id)
    requires |w.phases| == |qs|
    decreases steps
  {
    && steps != []
    && ((InsertsAt(qs, w, steps[0], id) && Actor(qs, steps[0]) != Some(user))
        || TakenMeanwhile(qs, Apply(qs, w, steps[0]), steps[1..], user, id))
  }

  lemma InserterOwns(qs: seq<Request>, w: World, s: Step, id: Id)
    requires |w.phases| == |qs| && InsertsAt(qs, w, s, id)
    ensures Actor(qs, s) == Some(Apply(qs, w, s).table[id].user)
  {
  }

  /** Once it is there, the row stays with its owner as long as nobody deletes it. */
  lemma {:induction false} OwnerStays(qs: seq<Request>, w: World, steps: seq<Step>, user: Account, id: Id)
    requires |w.phases| == |qs| && id in w.table && forall k :: 0 <= k < |steps| ==> !(steps[k].Delete? && steps[k].id == id)
    ensures id in Run(qs, w, steps).table && Run(qs, w, steps).table[id].user == w.table[id].user
    ensures !TakenMeanwhile(qs, w, steps, user, id)
    decreases steps
  {
    if steps != [] {
      OwnerIsFixed(qs, w, steps[0], id);
      OwnerStays(qs, Apply(qs, w, steps[0]), steps[1..], user, id);
    }
  }

  /** A free id ends up with another account exactly when a request of another account inserted it meanwhile. */
  lemma {:induction false} TakenIff(qs: seq<Request>, w: World, steps: seq<Step>, user: Account, id: Id)
    requires |w.phases| == |qs| && id !in w.table && forall k :: 0 <= k < |steps| ==> !(steps[k].Delete? && steps[k].id == id)
    ensures var table := Run(qs, w, steps).table;
            id in table && table[id].user != user <==> TakenMeanwhile(qs, w, steps, user, id)
    decreases steps
  {
    if steps != [] {
      var w1 := Apply(qs, w, steps[0]);
      if id in w1.table {
        InserterOwns(qs, w, steps[0], id);
        OwnerStays(qs, w1, steps[1..], user, id);
      } else {
        TakenIff(qs, w1, steps[1..], user, id);
      }
    }
  }

  lemma {:induction false} OthersLeavePhase(qs: seq<Request>, w: World, steps: seq<Step>, i: nat)
    requires |w.phases| == |qs| && i < |qs| && forall k :: 0 <= k < |steps| && steps[k].Advance? ==> steps[k].i != i
    ensures Run(qs, w, steps).phases[i] == w.phases[i]
    decreases steps
  {
    if steps != [] {
      OthersLeavePhase(qs, Apply(qs, w, steps[0]), steps[1..], i);
    }
  }

  /** The run after a request found its id free: others act, it inserts, others act, and if the insert failed it refreshes. */
  function AfterRace(qs: seq<Request>, w: World, before: seq<Step>, act: Step, between: seq<Step>): World
    requires |w.phases| == |qs| && act.Advance? && act.i < |qs|
  {
    var w' := Run(qs, Apply(qs, Run(qs, w, before), act), between);
    if w'.phases[act.i].Touching? then Apply(qs, w', act) else w'
  }

  /** A request that found its id free is answered that id, and the id is its own row exactly when no other account inserted
      it between the look-up and the insert. */
  lemma RaceIsWonIff(qs: seq<Request>, w: World, before: seq<Step>, act: Step, between: seq<Step>, id: Id)
    requires |w.phases| == |qs| && act.Advance? && act.i < |qs| && act.outcome.Done?
    requires w.phases[act.i] == Planned(Adopt(id)) && id !in w.table
    requires forall k :: 0 <= k < |before + between| ==>
               && !((before + between)[k].Delete? && (before + between)[k].id == id)
               && ((before + between)[k].Advance? ==> (before + between)[k].i != act.i)
    ensures var w' := AfterRace(qs, w, before, act, between);
            && w'.phases[act.i] == Answered(Ok(id)) && id in w'.table
            && (w'.table[id].user == qs[act.i].user <==> !TakenMeanwhile(qs, w, before, qs[act.i].user, id))
  {
    var i, user := act.i, qs[act.i].user;
    assert forall k :: 0 <= k < |before| ==> (before + between)[k] == before[k];
    assert forall k :: 0 <= k < |between| ==> (before + between)[|before| + k] == between[k];
    OthersLeavePhase(qs, w, before, i);
    TakenIff(qs, w, before, user, id);
    var w1 := Run(qs, w, before);
    var w2 := Apply(qs, w1, act);
    ActOnFree(qs, w1, act, id);
    OthersLeavePhase(qs, w2, between, i);
    OwnerStays(qs, w2, between, user, id);
    var w3 := Run(qs, w2, between);
    if w3.phases[i].Touching? {
      OwnerIsFixed(qs, w3, act, id);
      RefreshAnswers(qs, w3, act, id);
    }
  }

  lemma ActOnFree(qs: seq<Request>, w: World, act: Step, id: Id)
    requires |w.phases| == |qs| && act.Advance? && act.i < |qs| && act.outcome.Done? && w.phases[act.i] == Planned(Adopt(id))
    ensures var w' := Apply(qs, w, act);
            && id in w'.table
            && w'.phases[act.i] == (if id in w.table then Touching(id) else Answered(Ok(id)))
            && w'.table[id].user == (if id in w.table then w.table[id].user else qs[act.i].user)
  {
  }

  lemma RefreshAnswers(qs: seq<Request>, w: World, act: Step, id: Id)
    requires |w.phases| == |qs| && act.Advance? && act.i < |qs| && act.outcome.Done?
    requires w.phases[act.i] == Touching(id) && id in w.table
    ensures var w' := Apply(qs, w, act); w'.phases[act.i] == Answered(Ok(id)) && id in w'.table
  {
  }

  /** Two accounts that race for one free id: the later one is told it has the id, which is the other's row. */
  lemma RacingAccountsShareAnAnswer(first: Account, second: Account, id: Id, name: string)
    requires first != second
    ensures var qs := [Request(first, Some(id), name, None), Request(second, Some(id), name, None)];
            var steps := [Advance(0, None, id + 1, Done, 0), Advance(1, None, id + 1, Done, 0),
                          Advance(0, None, id + 1, Done, 0), Advance(1, None, id + 1, Done, 0),
                          Advance(1, None, id + 1, Done, 0)];
            var w := Run(qs, World(map[], [Waiting, Waiting]), steps);
            && w.phases == [Answered(Ok(id)), Answered(Ok(id))]
            && id in w.table && w.table[id].user == first
  {
    var qs := [Request(first, Some(id), name, None), Request(second, Some(id), name, None)];
    var a0, a1 := Advance(0, None, id + 1, Done, 0), Advance(1, None, id + 1, Done, 0);
    var steps := [a0, a1, a0, a1, a1];
    var w0 := World(map[], [Waiting, Waiting]);
    var w1 := Apply(qs, w0, a0);
    var w2 := Apply(qs, w1, a1);
    var w3 := Apply(qs, w2, a0);
    var w4 := Apply(qs, w3, a1);
    var w5 := Apply(qs, w4, a1);
    assert steps[1..] == [a1, a0, a1, a1] && steps[1..][1..] == [a0, a1, a1];
    assert Run(qs, w4, [a1]) == w5;
    assert [a1, a1][1..] == [a1];
    assert Run(qs, w3, [a1, a1]) == w5;
    assert [a0, a1, a1][1..] == [a1, a1];
    assert Run(qs, w2, [a0, a1, a1]) == w5;
  }

  // ------------------------------------------------------------ one undisturbed request

  /** The caller has a row to reuse: the one it names, or one with its name and platform. */
  ghost predicate Reusable(table: Table, q: Request) {
    match q.requested
    case Some(id) => id in table && table[id].user == q.user
    case None => exists id :: id in table && Matches(table, q, id)
  }

  /** Nothing to reuse, and no free id to adopt. */
  ghost predicate MustMint(table: Table, q: Request) {
    !Reusable(table, q) && (q.requested.Some? ==> q.requested.value in table)
  }

  /** The row carries what the request said. */
  predicate Names(table: Table, id: Id, q: Request, now: nat) {
    && id in table && table[id].user == q.user && table[id].name == q.name && table[id].lastSeen == now
    && (q.platform.Some? ==> table[id].platform == q.platform)
  }

  class DeviceStore {
    var table: Table

    constructor ()
      ensures table == map[]
    {
      table := map[];
    }

    /** The query for the newest row with the caller's name and platform. */
    method FindByName(q: Request) returns (pick: Option<Id>)
      ensures NewestMatch(table, q, pick)
    {
      pick := None;
      var rest := table.Keys;
      while rest != {}
        invariant rest <= table.Keys
        invariant pick.Some? ==> Matches(table, q, pick.value)
        invariant forall id :: id in table && id !in rest && Matches(table, q, id) ==>
                    pick.Some? && table[id].lastSeen <= table[pick.value].lastSeen
        decreases rest
      {
        var id :| id in rest;
        if Matches(table, q, id) && (pick.None? || table[pick.value].lastSeen <= table[id].lastSeen) {
          pick := Some(id);
        }
        rest := rest - {id};
      }
    }

    /** `resolve_sync_device` without any other request in between: the answer is a row of the caller, at
        most one row is new, and a row that can be reused is. */
    method ResolveDevice(q: Request, minted: Id, now: nat) returns (r: Result<Id, ()>)
      modifies this
      ensures r.Err? <==> MustMint(old(table), q) && minted in old(table)
      ensures r.Err? ==> table == old(table)
      ensures r.Ok? ==> Names(table, r.value, q, now) && table.Keys == old(table).Keys + {r.value}
      ensures r.Ok? && q.platform.None? ==>
                table[r.value].platform == if r.value in old(table) then old(table)[r.value].platform else None
      ensures q.requested.None? && Reusable(old(table), q) ==> r.Ok? && NewestMatch(old(table), q, Some(r.value))
      ensures Reusable(old(table), q) ==> table.Keys == old(table).Keys
      ensures r.Ok? && MustMint(old(table), q) ==> r.value == minted && minted !in old(table)
      ensures q.requested.Some? && !MustMint(old(table), q) ==> r == Ok(q.requested.value)
      ensures forall id :: id in old(table) && r != Ok(id) ==> id in table && table[id] == old(table)[id]
    {
      var owner := if q.requested.Some? && q.requested.value in table then Some(table[q.requested.value].user) else None;
      var pick := None;
      if q.requested.None? {
        pick := FindByName(q);
      }
      match PlanDeviceLink(q.requested, owner, q.user, pick)
      case Refresh(id) =>
        table := Touched(table, q, id, now);
        r := Ok(id);
      case AdoptExisting(id) =>
        table := Touched(table, q, id, now);
        r := Ok(id);
      case Adopt(id) =>
        table := Inserted(table, q, id, now);
        r := Ok(id);
      case Mint =>
        if minted in table {
          r := Err(());
        } else {
          table := Inserted(table, q, minted, now);
          r := Ok(minted);
        }
    }
  }
}
