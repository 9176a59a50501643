/** The per-upload lock map (server/src/handlers/upload.rs): reference-counted mutexes whose idle
    entries are deleted, under every interleaving of the requests that use them. */
module UploadLocks {
  import opened StagingNames

  type Task = nat

  /** A mutex is known by the order of its creation. */
  type Mutex = nat

  /** Where a request stands. After its guard is dropped it still has to look at the map. */
  datatype Phase =
    | Idle
    | Waiting(id: Uuid, mutex: Mutex)
    | Holding(id: Uuid, mutex: Mutex)
    | Released(id: Uuid)

  /** `table` is the map itself, `strong` the reference counts, `locked` the mutexes that are taken. */
  datatype State = State(
    table: map<Uuid, Mutex>,
    strong: map<Mutex, nat>,
    locked: set<Mutex>,
    phases: map<Task, Phase>,
    created: nat)

  const INITIAL := State(map[], map[], {}, map[], 0)

  datatype Step =
    | Clone(task: Task, id: Uuid)     // clone the entry under the map lock, creating it if needed
    | Grant(task: Task)               // the awaited mutex is acquired
    | Release(task: Task)             // the guard is dropped, and with it its reference
    | Forget(task: Task)              // remove the entry if only the map refers to it
    | Abandon(task: Task)             // the request is cancelled while it waits

  function PhaseOf(s: State, t: Task): Phase {
    if t in s.phases then s.phases[t] else Idle
  }

  predicate Refers(p: Phase) {
    p.Waiting? || p.Holding?
  }

  predicate Enabled(s: State, step: Step) {
    var p := PhaseOf(s, step.task);
    match step
    case Clone(_, _) => p.Idle?
    case Grant(_) => p.Waiting? && p.mutex !in s.locked
    case Release(_) => p.Holding? && p.mutex in s.strong && s.strong[p.mutex] > 0
    case Forget(_) => p.Released?
    case Abandon(_) => p.Waiting? && p.mutex in s.strong && s.strong[p.mutex] > 0
  }

  function Do(s: State, step: Step): State
    requires Enabled(s, step)
  {
    var t := step.task;
    var p := PhaseOf(s, t);
    match step
    case Clone(_, id) =>
      if id in s.table then
        var m := s.table[id];
        s.(strong := s.strong[m := (if m in s.strong then s.strong[m] else 0) + 1], phases := s.phases[t := Waiting(id, m)])
      else
        var m := s.created;
        s.(table := s.table[id := m], strong := s.strong[m := 2], phases := s.phases[t := Waiting(id, m)], created := m + 1)
    case Grant(_) =>
      s.(locked := s.locked + {p.mutex}, phases := s.phases[t := Holding(p.id, p.mutex)])
    case Release(_) =>
      s.(locked := s.locked - {p.mutex}, strong := s.strong[p.mutex := s.strong[p.mutex] - 1], phases := s.phases[t := Released(p.id)])
    case Forget(_) =>
      var idle := p.id in s.table && s.table[p.id] in s.strong && s.strong[s.table[p.id]] == 1;
      s.(table := if idle then s.table - {p.id} else s.table, phases := s.phases[t := Idle])
    case Abandon(_) =>
      s.(strong := s.strong[p.mutex := s.strong[p.mutex] - 1], phases := s.phases[t := Idle])
  }

  /** The requests that wait for a mutex or hold it. */
  function Users(s: State, m: Mutex): set<Task> {
    set t | t in s.phases && Refers(s.phases[t]) && s.phases[t].mutex == m
  }

  /** All requests that wait or hold refer to the mutex that is in the map now. */
  ghost predicate Linked(s: State) {
    forall t :: t in s.phases && Refers(s.phases[t]) ==>
      s.phases[t].id in s.table && s.table[s.phases[t].id] == s.phases[t].mutex
  }

  /** Different ids have different mutexes, all of them created before. */
  ghost predicate Injective(s: State) {
    && (forall i, j :: i in s.table && j in s.table && s.table[i] == s.table[j] ==> i == j)
    && (forall i :: i in s.table ==> s.table[i] < s.created)
  }

  /** A mutex in the map is referred to by the map and by its users. */
  ghost predicate Counted(s: State) {
    forall i :: i in s.table ==> s.table[i] in s.strong && s.strong[s.table[i]] == 1 + |Users(s, s.table[i])|
  }

  /** A taken mutex has one holder, a free one none. */
  ghost predicate Exclusive(s: State) {
    && (forall t, u :: Holds(s, t) && Holds(s, u) && s.phases[t].mutex == s.phases[u].mutex ==> t == u)
    && (forall t :: Holds(s, t) ==> s.phases[t].mutex in s.locked)
    && (forall m :: m in s.locked ==> exists t :: Holds(s, t) && s.phases[t].mutex == m)
  }

  predicate Holds(s: State, t: Task) {
    t in s.phases && s.phases[t].Holding?
  }

  ghost predicate Inv(s: State) {
    Linked(s) && Injective(s) && Counted(s) && Exclusive(s)
  }

  lemma UsersAfter(s: State, s': State, t: Task, m: Mutex)
    requires t in s'.phases && s'.phases == s.phases[t := s'.phases[t]]
    ensures Refers(s'.phases[t]) && s'.phases[t].mutex == m ==> Users(s', m) == Users(s, m) + {t}
    ensures !(Refers(s'.phases[t]) && s'.phases[t].mutex == m) ==> Users(s', m) == Users(s, m) - {t}
  {
  }

  lemma LinkedStep(s: State, step: Step)
    requires Inv(s) && Enabled(s, step)
    ensures Linked(Do(s, step)) && Injective(Do(s, step))
  {
    if step.Forget? {
      var id := PhaseOf(s, step.task).id;
      if id in s.table && s.strong[s.table[id]] == 1 {
        assert Users(s, s.table[id]) == {};
        assert forall u :: u in s.phases && Refers(s.phases[u]) ==> u !in Users(s, s.table[id]);
      }
    }
  }

  /** How the users of one mutex change with one step. */
  lemma UsersStep(s: State, step: Step, m: Mutex)
    requires Enabled(s, step)
    ensures var s' := Do(s, step);
            var t := step.task;
            var before := t in s.phases && Refers(s.phases[t]) && s.phases[t].mutex == m;
            var after := Refers(s'.phases[t]) && s'.phases[t].mutex == m;
            |Users(s', m)| == |Users(s, m)| + (if after && !before then 1 else if before && !after then -1 else 0)
  {
    var s' := Do(s, step);
    var t := step.task;
    UsersAfter(s, s', t, m);
    if t in s.phases && Refers(s.phases[t]) && s.phases[t].mutex == m {
      assert t in Users(s, m);
      assert Users(s, m) + {t} == Users(s, m);
    } else {
      assert t !in Users(s, m);
      assert Users(s, m) - {t} == Users(s, m);
    }
  }

  lemma NewMutexHasNoUsers(s: State, m: Mutex)
    requires Inv(s) && m >= s.created
    ensures Users(s, m) == {}
  {
  }

  lemma CountedEntry(s: State, step: Step, i: Uuid)
    requires Inv(s) && Enabled(s, step) && i in Do(s, step).table
    ensures var s' := Do(s, step); s'.table[i] in s'.strong && s'.strong[s'.table[i]] == 1 + |Users(s', s'.table[i])|
  {
    UsersStep(s, step, Do(s, step).table[i]);
    if i !in s.table {
      NewMutexHasNoUsers(s, s.created);
    }
  }

  lemma CountedStep(s: State, step: Step)
    requires Inv(s) && Enabled(s, step)
    ensures Counted(Do(s, step))
  {
    var s' := Do(s, step);
    forall i | i in s'.table
      ensures s'.table[i] in s'.strong && s'.strong[s'.table[i]] == 1 + |Users(s', s'.table[i])|
    {
      CountedEntry(s, step, i);
    }
  }

  lemma ExclusiveStep(s: State, step: Step)
    requires Exclusive(s) && Enabled(s, step)
    ensures Exclusive(Do(s, step))
  {
    var s' := Do(s, step);
    forall m | m in s'.locked ensures exists t :: Holds(s', t) && s'.phases[t].mutex == m {
      if m in s.locked {
        var u :| Holds(s, u) && s.phases[u].mutex == m;
        assert u != step.task ==> Holds(s', u) && s'.phases[u].mutex == m;
      } else {
        assert Holds(s', step.task);
      }
    }
  }

  /** Whatever a request does next, the bookkeeping stays right. */
  lemma InvStep(s: State, step: Step)
    requires Inv(s) && Enabled(s, step)
    ensures Inv(Do(s, step))
  {
    LinkedStep(s, step);
    CountedStep(s, step);
    ExclusiveStep(s, step);
  }

  // -------------------------------------------------------------------- runs

  /** A run: every step is possible where it is taken. */
  predicate Possible(s: State, steps: seq<Step>)
    decreases steps
  {
    steps == [] || (Enabled(s, steps[0]) && Possible(Do(s, steps[0]), steps[1..]))
  }

  function Run(s: State, steps: seq<Step>): State
    requires Possible(s, steps)
    decreases steps
  {
    if steps == [] then s else Run(Do(s, steps[0]), steps[1..])
  }

  lemma {:induction false} InvRun(s: State, steps: seq<Step>)
    requires Inv(s) && Possible(s, steps)
    ensures Inv(Run(s, steps))
    decreases steps
  {
    if steps != [] {
      InvStep(s, steps[0]);
      InvRun(Do(s, steps[0]), steps[1..]);
    }
  }

  /** Lock safety. Under every interleaving, cancelled waiters included, all requests that wait for an
      id or hold it share the one mutex that is in the map, so at most one of them holds it; and a
      waiter is never stuck behind a mutex that nobody holds. */
  lemma LockSafety(steps: seq<Step>, t: Task, u: Task)
    requires Possible(INITIAL, steps)
    requires var s := Run(INITIAL, steps);
             && Refers(PhaseOf(s, t)) && Refers(PhaseOf(s, u)) && PhaseOf(s, t).id == PhaseOf(s, u).id
    ensures var s := Run(INITIAL, steps);
            var id := PhaseOf(s, t).id;
            && id in s.table && PhaseOf(s, t).mutex == PhaseOf(s, u).mutex == s.table[id]
            && (PhaseOf(s, t).Holding? && PhaseOf(s, u).Holding? ==> t == u)
            && (PhaseOf(s, t).Waiting? && (forall v :: Holds(s, v) ==> s.phases[v].id != id) ==> Enabled(s, Grant(t)))
  {
    InvRun(INITIAL, steps);
  }

  /** Mutual exclusion is per id only: holders of different ids never block each other. */
  lemma DifferentIdsAreIndependent(steps: seq<Step>, t: Task, u: Task)
    requires Possible(INITIAL, steps)
    requires var s := Run(INITIAL, steps);
             && Refers(PhaseOf(s, t)) && Refers(PhaseOf(s, u)) && PhaseOf(s, t).id != PhaseOf(s, u).id
    ensures PhaseOf(Run(INITIAL, steps), t).mutex != PhaseOf(Run(INITIAL, steps), u).mutex
  {
    InvRun(INITIAL, steps);
  }

  // ------------------------------------------------------- no entry stays behind

  predicate Concerns(p: Phase, id: Uuid) {
    !p.Idle? && p.id == id
  }

  /** Some request is still due to look at this entry. */
  ghost predicate Attended(s: State, id: Uuid) {
    exists t :: t in s.phases && Concerns(s.phases[t], id)
  }

  ghost predicate AllAttended(s: State) {
    forall id :: id in s.table ==> Attended(s, id)
  }

  lemma AttendedStep(s: State, step: Step)
    requires Inv(s) && AllAttended(s) && Enabled(s, step) && !step.Abandon?
    ensures AllAttended(Do(s, step))
  {
    var s' := Do(s, step);
    forall id | id in s'.table ensures Attended(s', id) {
      if id in s.table {
        var t :| t in s.phases && Concerns(s.phases[t], id);
        if step.Forget? && t == step.task {
          assert Users(s, s.table[id]) != {};
          var u :| u in Users(s, s.table[id]);
          assert u in s'.phases && Concerns(s'.phases[u], id);
        } else {
          assert t in s'.phases && Concerns(s'.phases[t], id);
        }
      } else {
        assert Concerns(s'.phases[step.task], id);
      }
    }
  }

  lemma {:induction false} AttendedRun(s: State, steps: seq<Step>)
    requires Inv(s) && AllAttended(s) && Possible(s, steps)
    requires forall i :: 0 <= i < |steps| ==> !steps[i].Abandon?
    ensures AllAttended(Run(s, steps))
    decreases steps
  {
    if steps != [] {
      AttendedStep(s, steps[0]);
      InvStep(s, steps[0]);
      AttendedRun(Do(s, steps[0]), steps[1..]);
    }
  }

  lemma IdleIsUnattended(s: State, id: Uuid)
    requires forall t :: PhaseOf(s, t).Idle?
    ensures !Attended(s, id)
  {
    assert forall t :: t in s.phases ==> s.phases[t] == PhaseOf(s, t);
  }

  /** Without cancelled waiters the map is empty once every request is through. */
  lemma NoEntryStaysBehind(steps: seq<Step>)
    requires Possible(INITIAL, steps)
    requires forall i :: 0 <= i < |steps| ==> !steps[i].Abandon?
    requires forall t :: PhaseOf(Run(INITIAL, steps), t).Idle?
    ensures Run(INITIAL, steps).table == map[]
  {
    AttendedRun(INITIAL, steps);
    var s := Run(INITIAL, steps);
    forall id ensures id !in s.table {
      IdleIsUnattended(s, id);
    }
  }

  /** A cancelled waiter leaves an entry nobody will remove exactly when it was the last request of its id. */
  lemma AbandonLeaksIff(s: State, t: Task)
    requires Inv(s) && AllAttended(s) && Enabled(s, Abandon(t))
    ensures AllAttended(Do(s, Abandon(t))) <==>
              exists u :: u != t && u in s.phases && Concerns(s.phases[u], PhaseOf(s, t).id)
  {
    var s' := Do(s, Abandon(t));
    var id := PhaseOf(s, t).id;
    assert id in s'.table;
    if AllAttended(s') {
      var u :| u in s'.phases && Concerns(s'.phases[u], id);
      assert u != t && u in s.phases && Concerns(s.phases[u], id);
    }
    if exists u :: u != t && u in s.phases && Concerns(s.phases[u], id) {
      forall i | i in s'.table ensures Attended(s', i) {
        var v :| v in s.phases && Concerns(s.phases[v], i) && (i == id ==> v != t);
        assert v in s'.phases && Concerns(s'.phases[v], i);
      }
    }
  }

  // -------------------------------------------------- the map as the server keeps it

  /** The shared lock map. Each method is one critical section of the source. */
  class LockMap {
    var table: map<Uuid, Mutex>
    var strong: map<Mutex, nat>
    var locked: set<Mutex>
    var phases: map<Task, Phase>
    var created: nat

    constructor ()
      ensures View() == INITIAL
    {
      table, strong, locked, phases, created := map[], map[], {}, map[], 0;
    }

    function View(): State
      reads this
    {
      State(table, strong, locked, phases, created)
    }

    /** The first part of `lock_upload`: find or create the entry and clone it. */
    method CloneEntry(t: Task, id: Uuid)
      requires Enabled(View(), Clone(t, id))
      modifies this
      ensures View() == Do(old(View()), Clone(t, id))
    {
      if id !in table {
        table := table[id := created];
        strong := strong[created := 1];
        created := created + 1;
      }
      var m := table[id];
      strong := strong[m := (if m in strong then strong[m] else 0) + 1];
      phases := phases[t := Waiting(id, m)];
    }

    /** The second part of `lock_upload`: the awaited mutex is free. */
    method LockOwned(t: Task)
      requires Enabled(View(), Grant(t))
      modifies this
      ensures View() == Do(old(View()), Grant(t))
    {
      var p := phases[t];
      locked := locked + {p.mutex};
      phases := phases[t := Holding(p.id, p.mutex)];
    }

    /** The first part of dropping a guard. */
    method DropGuard(t: Task)
      requires Enabled(View(), Release(t))
      modifies this
      ensures View() == Do(old(View()), Release(t))
    {
      var p := phases[t];
      locked := locked - {p.mutex};
      strong := strong[p.mutex := strong[p.mutex] - 1];
      phases := phases[t := Released(p.id)];
    }

    /** The second part of dropping a guard: under the map lock, an idle entry is removed. */
    method RemoveIdle(t: Task)
      requires Enabled(View(), Forget(t))
      modifies this
      ensures View() == Do(old(View()), Forget(t))
    {
      var id := phases[t].id;
      if id in table && table[id] in strong && strong[table[id]] == 1 {
        table := table - {id};
      }
      phases := phases[t := Idle];
    }

    /** A request is dropped while it waits: only its reference goes away. */
    method CancelWait(t: Task)
      requires Enabled(View(), Abandon(t))
      modifies this
      ensures View() == Do(old(View()), Abandon(t))
    {
      var m := phases[t].mutex;
      strong := strong[m := strong[m] - 1];
      phases := phases[t := Idle];
    }
  }
}
