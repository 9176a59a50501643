/** The login throttle (server/src/auth.rs): at most ten wrong passwords per window for one account name.
    Instants are nanoseconds of a monotonic clock. */
module LoginThrottle {
  import opened Prelude

  const WINDOW: nat := 15 * 60 * 1_000_000_000
  const MAX_FAILURES: nat := 10

  /** One entry of `login_attempts`. */
  datatype Attempt = Attempt(windowStarted: nat, failures: nat)

  predicate Expired(attempt: Attempt, now: nat) {
    now > attempt.windowStarted + WINDOW
  }

  // ------------------------------------------------------------ the throttle of one key

  /** `check_login_allowed` reads the clock twice. */
  function Check(entry: Option<Attempt>, first: nat, second: nat): (bool, Option<Attempt>) {
    match entry
    case None => (true, None)
    case Some(attempt) =>
      if !Expired(attempt, first) && attempt.failures >= MAX_FAILURES then (false, entry)
      else if Expired(attempt, second) then (true, None)
      else (true, entry)
  }

  /** `register_failed_login`. */
  function Register(entry: Option<Attempt>, now: nat): Attempt {
    if entry.None? || Expired(entry.value, now) then Attempt(now, 1)
    else Attempt(entry.value.windowStarted, entry.value.failures + 1)
  }

  /** A login request: the two readings of the check, the time of its outcome, and whether the password was right. */
  datatype Login = Login(first: nat, second: nat, done: nat, correct: bool)

  /** A failed password check: when, in which window, and after how many successful logins. */
  datatype Failure = Failure(time: nat, window: nat, epoch: nat)

  /** One key over a run: its entry, its failures so far, its successes so far, the clock. */
  datatype History = History(entry: Option<Attempt>, log: seq<Failure>, epoch: nat, now: nat)

  const FRESH := History(None, [], 0, 0)

  function Step(h: History, l: Login): History {
    var (allowed, entry) := Check(h.entry, l.first, l.second);
    if !allowed then h.(now := l.done)
    else if l.correct then History(None, h.log, h.epoch + 1, l.done)
    else
      var attempt := Register(entry, l.done);
      History(Some(attempt), h.log + [Failure(l.done, attempt.windowStarted, h.epoch)], h.epoch, l.done)
  }

  /** Requests for one key that follow each other. */
  ghost predicate Sequential(now: nat, logins: seq<Login>)
    decreases logins
  {
    logins != [] ==>
      && now <= logins[0].first <= logins[0].second <= logins[0].done
      && Sequential(logins[0].done, logins[1..])
  }

  function Run(h: History, logins: seq<Login>): History
    decreases logins
  {
    if logins == [] then h else Run(Step(h, logins[0]), logins[1..])
  }

  // ------------------------------------------------------------ what every run keeps

  predicate Before(a: Failure, b: Failure) {
    a.epoch == b.epoch ==> a.window == b.window || a.window + WINDOW < b.window
  }

  /** Failures of the current epoch that lie before the window `start`. */
  predicate EarlierThan(log: seq<Failure>, until: nat, epoch: nat, start: nat)
    requires until <= |log|
  {
    forall k :: 0 <= k < until && log[k].epoch == epoch ==> log[k].window + WINDOW < start
  }

  /** The last failures are those the entry counts. */
  predicate CountedBy(log: seq<Failure>, epoch: nat, attempt: Attempt) {
    && 1 <= attempt.failures <= MAX_FAILURES && attempt.failures <= |log|
    && (forall k :: |log| - attempt.failures <= k < |log| ==> log[k].epoch == epoch && log[k].window == attempt.windowStarted)
    && EarlierThan(log, |log| - attempt.failures, epoch, attempt.windowStarted)
  }

  /** The first failure of a window, which starts it. */
  predicate OpensWindow(log: seq<Failure>, k: nat)
    requires k < |log|
  {
    k == 0 || log[k - 1].epoch != log[k].epoch || log[k - 1].window != log[k].window
  }

  ghost predicate Timed(log: seq<Failure>, epoch: nat, now: nat) {
    && (forall k :: 0 <= k < |log| ==>
          log[k].window <= log[k].time <= log[k].window + WINDOW && log[k].time <= now && log[k].epoch <= epoch)
    && (forall k :: 0 <= k < |log| && OpensWindow(log, k) ==> log[k].time == log[k].window)
  }

  ghost predicate Spaced(log: seq<Failure>) {
    forall i, j :: 0 <= i < j < |log| ==> Before(log[i], log[j]) && log[i].time <= log[j].time
  }

  ghost predicate TenApart(log: seq<Failure>) {
    forall i, j :: 0 <= i && j == i + MAX_FAILURES && j < |log| && log[i].epoch == log[j].epoch ==>
      log[i].window + WINDOW < log[j].window
  }

  ghost predicate EntryFits(entry: Option<Attempt>, log: seq<Failure>, epoch: nat, now: nat) {
    match entry
    case None => EarlierThan(log, |log|, epoch, now)
    case Some(attempt) => attempt.windowStarted <= now && CountedBy(log, epoch, attempt)
  }

  ghost predicate Throttled(h: History) {
    && Timed(h.log, h.epoch, h.now) && Spaced(h.log) && TenApart(h.log)
    && EntryFits(h.entry, h.log, h.epoch, h.now)
  }

  /** After a check the entry, if any, has room for one more failure. */
  lemma CheckLeavesRoom(h: History, first: nat, second: nat)
    requires Throttled(h) && h.now <= first <= second
    ensures var (allowed, entry) := Check(h.entry, first, second);
            allowed ==> forall now :: second <= now ==> Room(entry, h.log, h.epoch, now)
  {
  }

  /** What a check leaves: no entry because every failure is long past, or an entry with room. */
  predicate Room(entry: Option<Attempt>, log: seq<Failure>, epoch: nat, now: nat) {
    match entry
    case None => EarlierThan(log, |log|, epoch, now)
    case Some(attempt) => attempt.windowStarted <= now && CountedBy(log, epoch, attempt) && attempt.failures < MAX_FAILURES
  }

  lemma NewFailureCounted(entry: Option<Attempt>, log: seq<Failure>, epoch: nat, now: nat)
    requires Room(entry, log, epoch, now)
    ensures var attempt := Register(entry, now);
            && attempt.windowStarted <= now <= attempt.windowStarted + WINDOW
            && CountedBy(log + [Failure(now, attempt.windowStarted, epoch)], epoch, attempt)
  {
  }

  lemma NewFailureTimed(log: seq<Failure>, epoch: nat, before: nat, now: nat, attempt: Attempt)
    requires Timed(log, epoch, before) && before <= now
    requires attempt.windowStarted <= now <= attempt.windowStarted + WINDOW
    requires CountedBy(log + [Failure(now, attempt.windowStarted, epoch)], epoch, attempt)
    requires attempt.failures == 1 ==> attempt.windowStarted == now
    ensures Timed(log + [Failure(now, attempt.windowStarted, epoch)], epoch, now)
  {
    var log' := log + [Failure(now, attempt.windowStarted, epoch)];
    assert attempt.failures > 1 ==> !OpensWindow(log', |log|);
    assert forall k :: 0 <= k < |log| ==> log'[k] == log[k] && (OpensWindow(log', k) <==> OpensWindow(log, k));
  }

  lemma NewFailureSpaced(log: seq<Failure>, epoch: nat, now: nat, attempt: Attempt)
    requires Spaced(log) && TenApart(log) && (forall k :: 0 <= k < |log| ==> log[k].time <= now)
    requires CountedBy(log + [Failure(now, attempt.windowStarted, epoch)], epoch, attempt)
    ensures Spaced(log + [Failure(now, attempt.windowStarted, epoch)])
    ensures TenApart(log + [Failure(now, attempt.windowStarted, epoch)])
  {
  }

  lemma FailureKeepsBounds(h: History, entry: Option<Attempt>, now: nat)
    requires Throttled(h) && h.now <= now && Room(entry, h.log, h.epoch, now)
    ensures var attempt := Register(entry, now);
            Throttled(History(Some(attempt), h.log + [Failure(now, attempt.windowStarted, h.epoch)], h.epoch, now))
  {
    var attempt := Register(entry, now);
    NewFailureCounted(entry, h.log, h.epoch, now);
    NewFailureTimed(h.log, h.epoch, h.now, now, attempt);
    NewFailureSpaced(h.log, h.epoch, now, attempt);
  }

  lemma StepKeepsBounds(h: History, l: Login)
    requires Throttled(h) && h.now <= l.first <= l.second <= l.done
    ensures Throttled(Step(h, l))
  {
    CheckLeavesRoom(h, l.first, l.second);
    var (allowed, entry) := Check(h.entry, l.first, l.second);
    if allowed && !l.correct {
      assert Room(entry, h.log, h.epoch, l.done);
      FailureKeepsBounds(h, entry, l.done);
    }
  }

  lemma {:induction false} RunKeepsBounds(h: History, logins: seq<Login>)
    requires Throttled(h) && Sequential(h.now, logins)
    ensures Throttled(Run(h, logins))
    decreases logins
  {
    if logins != [] {
      StepKeepsBounds(h, logins[0]);
      RunKeepsBounds(Step(h, logins[0]), logins[1..]);
    }
  }

  const PER_INTERVAL: nat := 2 * MAX_FAILURES - 1

  /** No interval of fifteen minutes without a successful login holds more than nineteen failed password
      checks: of any twenty in a row, the last comes more than fifteen minutes after the first. */
  lemma NineteenPerInterval(logins: seq<Login>, i: nat)
    requires Sequential(0, logins)
    ensures var log := Run(FRESH, logins).log;
            i + PER_INTERVAL < |log| && log[i].epoch == log[i + PER_INTERVAL].epoch ==>
              log[i].time + WINDOW < log[i + PER_INTERVAL].time
  {
    RunKeepsBounds(FRESH, logins);
    var h := Run(FRESH, logins);
    if i + PER_INTERVAL < |h.log| && h.log[i].epoch == h.log[i + PER_INTERVAL].epoch {
      EpochsAreOrdered(FRESH, logins, i, i + MAX_FAILURES - 1);
      EpochsAreOrdered(FRESH, logins, i + MAX_FAILURES - 1, i + MAX_FAILURES);
      EpochsAreOrdered(FRESH, logins, i + MAX_FAILURES, i + PER_INTERVAL);
      TwentySpread(h, i);
    }
  }

  lemma TwentySpread(h: History, i: nat)
    requires Throttled(h) && i + PER_INTERVAL < |h.log|
    requires h.log[i].epoch == h.log[i + MAX_FAILURES - 1].epoch == h.log[i + MAX_FAILURES].epoch == h.log[i + PER_INTERVAL].epoch
    ensures h.log[i].time + WINDOW < h.log[i + PER_INTERVAL].time
  {
    var first, tenth, eleventh, last := h.log[i], h.log[i + MAX_FAILURES - 1], h.log[i + MAX_FAILURES], h.log[i + PER_INTERVAL];
    assert Before(first, tenth) && Before(eleventh, last);
    if first.window == tenth.window {
      TenInARowOpen(h, i);
    } else {
      assert Before(tenth, last);
      assert first.window + WINDOW < tenth.window;
      assert tenth.window + WINDOW < h.log[i + MAX_FAILURES - 1 + MAX_FAILURES].window;
    }
  }

  /** Ten failures in one window are the whole window, so the first of them opened it. */
  lemma TenInARowOpen(h: History, i: nat)
    requires Throttled(h) && i + MAX_FAILURES < |h.log|
    requires h.log[i].window == h.log[i + MAX_FAILURES - 1].window
    requires h.log[i].epoch == h.log[i + MAX_FAILURES - 1].epoch == h.log[i + MAX_FAILURES].epoch
    ensures h.log[i].time == h.log[i].window && h.log[i].window + WINDOW < h.log[i + MAX_FAILURES].window
  {
    assert i > 0 ==> (h.log[i - 1].epoch == h.log[i - 1 + MAX_FAILURES].epoch ==>
                        h.log[i - 1].window + WINDOW < h.log[i - 1 + MAX_FAILURES].window);
    assert OpensWindow(h.log, i);
  }

  lemma {:induction false} EpochsAreOrdered(h: History, logins: seq<Login>, i: nat, j: nat)
    requires i <= j < |Run(h, logins).log|
    requires forall a, b :: 0 <= a <= b < |h.log| ==> h.log[a].epoch <= h.log[b].epoch <= h.epoch
    ensures Run(h, logins).log[i].epoch <= Run(h, logins).log[j].epoch
    decreases logins
  {
    if logins != [] {
      EpochsAreOrdered(Step(h, logins[0]), logins[1..], i, j);
    }
  }

  /** Ten per window, and different windows of one epoch start more than fifteen minutes apart. */
  lemma TenPerWindow(logins: seq<Login>, i: nat, j: nat)
    requires Sequential(0, logins)
    ensures var log := Run(FRESH, logins).log;
            i < j < |log| && log[i].epoch == log[j].epoch ==>
              && (log[i].window != log[j].window ==> log[i].window + WINDOW < log[j].window)
              && (j >= i + MAX_FAILURES ==> log[i].window != log[j].window)
  {
    RunKeepsBounds(FRESH, logins);
    var h := Run(FRESH, logins);
    if i < j < |h.log| && h.log[i].epoch == h.log[j].epoch {
      assert Before(h.log[i], h.log[j]);
      if i + MAX_FAILURES <= j {
        EpochsAreOrdered(FRESH, logins, i, i + MAX_FAILURES);
        EpochsAreOrdered(FRESH, logins, i + MAX_FAILURES, j);
        TenthIsLater(h, i, j);
      }
    }
  }

  lemma TenthIsLater(h: History, i: nat, j: nat)
    requires Throttled(h) && i + MAX_FAILURES <= j < |h.log|
    requires h.log[i].epoch == h.log[i + MAX_FAILURES].epoch == h.log[j].epoch
    ensures h.log[i].window != h.log[j].window
  {
    if i + MAX_FAILURES < j {
      assert Before(h.log[i + MAX_FAILURES], h.log[j]);
    }
  }

  // ------------------------------------------------------------ who is refused

  /** One login raises the count by one at most. */
  lemma CountGrowsByOne(h: History, l: Login, n: nat)
    requires h.entry.Some? ==> h.entry.value.failures <= n
    ensures Step(h, l).entry.Some? ==> Step(h, l).entry.value.failures <= n + 1
  {
  }

  lemma {:induction false} CountIsBounded(h: History, logins: seq<Login>, n: nat)
    requires h.entry.Some? ==> h.entry.value.failures <= n
    ensures var h' := Run(h, logins); h'.entry.Some? ==> h'.entry.value.failures <= n + |logins|
    decreases logins
  {
    if logins != [] {
      CountGrowsByOne(h, logins[0], n);
      CountIsBounded(Step(h, logins[0]), logins[1..], n + 1);
    }
  }

  /** A success starts afresh: whatever came before it, none of the ten logins after it is refused. */
  lemma TenAfterSuccess(h: History, l: Login, logins: seq<Login>, next: Login)
    requires Check(h.entry, l.first, l.second).0 && l.correct && |logins| < MAX_FAILURES
    ensures Check(Run(Step(h, l), logins).entry, next.first, next.second).0
    ensures Step(h, l).epoch == h.epoch + 1
  {
    CountIsBounded(Step(h, l), logins, 0);
  }

  /** The last ten failures of a log are of this epoch and of one window, which is still open. */
  predicate TenInOpenWindow(log: seq<Failure>, epoch: nat, now: nat) {
    |log| >= MAX_FAILURES &&
    forall k :: |log| - MAX_FAILURES <= k < |log| ==>
      log[k].epoch == epoch && log[k].window == log[|log| - 1].window && now <= log[k].window + WINDOW
  }

  /** In every sequential run a login is refused if and only if ten passwords were wrong since the last success in a window that
      is still open; so none is refused more than fifteen minutes after its window started. */
  lemma RefusedIff(logins: seq<Login>, first: nat, second: nat)
    requires Sequential(0, logins) && Run(FRESH, logins).now <= first <= second
    ensures var h := Run(FRESH, logins);
            !Check(h.entry, first, second).0 <==> TenInOpenWindow(h.log, h.epoch, first)
  {
    RunKeepsBounds(FRESH, logins);
    RefusedExactly(Run(FRESH, logins), first, second);
  }

  lemma RefusedExactly(h: History, first: nat, second: nat)
    requires Throttled(h) && h.now <= first <= second
    ensures !Check(h.entry, first, second).0 <==> TenInOpenWindow(h.log, h.epoch, first)
  {
    match h.entry
    case None => LongPast(h.log, h.epoch, h.now, first);
    case Some(attempt) =>
      if attempt.failures < MAX_FAILURES {
        FewerInWindow(h.log, h.epoch, attempt, first);
      } else {
        FullWindow(h.log, h.epoch, attempt, first);
      }
  }

  lemma LongPast(log: seq<Failure>, epoch: nat, now: nat, first: nat)
    requires EarlierThan(log, |log|, epoch, now) && now <= first
    ensures !TenInOpenWindow(log, epoch, first)
  {
    var n := |log|;
    assert n > 0 && log[n - 1].epoch == epoch ==> log[n - 1].window + WINDOW < first;
  }

  lemma FullWindow(log: seq<Failure>, epoch: nat, attempt: Attempt, first: nat)
    requires CountedBy(log, epoch, attempt) && attempt.failures == MAX_FAILURES
    ensures TenInOpenWindow(log, epoch, first) <==> first <= attempt.windowStarted + WINDOW
  {
    var n := |log|;
    assert log[n - 1].window == attempt.windowStarted;
    if first <= attempt.windowStarted + WINDOW {
      forall k | n - MAX_FAILURES <= k < n
        ensures log[k].epoch == epoch && log[k].window == log[n - 1].window && first <= log[k].window + WINDOW
      {
        assert log[k].window == attempt.windowStarted;
      }
    }
  }

  lemma FewerInWindow(log: seq<Failure>, epoch: nat, attempt: Attempt, first: nat)
    requires CountedBy(log, epoch, attempt) && attempt.failures < MAX_FAILURES
    ensures !TenInOpenWindow(log, epoch, first)
  {
    var n := |log|;
    assert n >= MAX_FAILURES && log[n - MAX_FAILURES].epoch == epoch ==> log[n - MAX_FAILURES].window != log[n - 1].window;
  }

  // ------------------------------------------------------------ nineteen do happen

  function Wrong(time: nat, n: nat): seq<Login> {
    seq(n, _ => Login(time, time, time, false))
  }

  lemma {:induction false} RunConcat(h: History, a: seq<Login>, b: seq<Login>)
    ensures Run(h, a + b) == Run(Run(h, a), b)
    decreases a
  {
    if a == [] {
      assert a + b == b;
    } else {
      assert (a + b)[1..] == a[1..] + b;
      RunConcat(Step(h, a[0]), a[1..], b);
    }
  }

  /** Wrong passwords are counted while there is room in the window. */
  lemma {:induction false} Burst(h: History, time: nat, n: nat)
    requires h.entry.Some? && !Expired(h.entry.value, time) && h.entry.value.failures + n <= MAX_FAILURES
    ensures var attempt := h.entry.value;
            var h' := Run(h, Wrong(time, n));
            && h'.entry == Some(Attempt(attempt.windowStarted, attempt.failures + n)) && h'.epoch == h.epoch
            && h'.log == h.log + seq(n, _ => Failure(time, attempt.windowStarted, h.epoch))
    decreases n
  {
    if n > 0 {
      assert Wrong(time, n)[1..] == Wrong(time, n - 1);
      var next := Step(h, Login(time, time, time, false));
      Burst(next, time, n - 1);
    }
  }

  /** The bound is reached: nine wrong passwords at the end of one window and ten right after it. */
  lemma NineteenAtOnce()
    ensures var logins := Wrong(0, 1) + Wrong(WINDOW, 9) + Wrong(WINDOW + 1, 10);
            var log := Run(FRESH, logins).log;
            && |log| == 20 && (forall k :: 1 <= k < 20 ==> WINDOW <= log[k].time <= WINDOW + 1 && log[k].epoch == 0)
  {
    var h1 := Step(FRESH, Login(0, 0, 0, false));
    assert Wrong(0, 1)[1..] == [];
    assert Run(FRESH, Wrong(0, 1)) == h1;
    Burst(h1, WINDOW, 9);
    var h2 := Run(h1, Wrong(WINDOW, 9));
    var l := Login(WINDOW + 1, WINDOW + 1, WINDOW + 1, false);
    var h3 := Step(h2, l);
    assert Wrong(WINDOW + 1, 10)[0] == l && Wrong(WINDOW + 1, 10)[1..] == Wrong(WINDOW + 1, 9);
    Burst(h3, WINDOW + 1, 9);
    RunConcat(FRESH, Wrong(0, 1), Wrong(WINDOW, 9));
    RunConcat(FRESH, Wrong(0, 1) + Wrong(WINDOW, 9), Wrong(WINDOW + 1, 10));
  }

  // ------------------------------------------------------------ the handlers

  class Throttle {
    var attempts: map<string, Attempt>

    constructor ()
      ensures attempts == map[]
    {
      attempts := map[];
    }

    function Entry(key: string): Option<Attempt>
      reads this
    {
      if key in attempts then Some(attempts[key]) else None
    }

    method CheckLoginAllowed(key: string, first: nat, second: nat) returns (allowed: bool)
      modifies this
      ensures (allowed, Entry(key)) == Check(old(Entry(key)), first, second)
      ensures forall other :: other != key ==> Entry(other) == old(Entry(other))
    {
      if key in attempts {
        var entry := attempts[key];
        if first <= entry.windowStarted + WINDOW && entry.failures >= MAX_FAILURES {
          return false;
        }
        if second > entry.windowStarted + WINDOW {
          attempts := attempts - {key};
        }
      }
      return true;
    }

    method RegisterFailedLogin(key: string, now: nat)
      modifies this
      ensures Entry(key) == Some(Register(old(Entry(key)), now))
      ensures forall other :: other != key ==> Entry(other) == old(Entry(other))
    {
      if key !in attempts {
        attempts := attempts[key := Attempt(now, 0)];
      }
      if now > attempts[key].windowStarted + WINDOW {
        attempts := attempts[key := Attempt(now, 0)];
      }
      attempts := attempts[key := attempts[key].(failures := attempts[key].failures + 1)];
    }

    method ClearFailedLogins(key: string)
      modifies this
      ensures Entry(key) == None
      ensures forall other :: other != key ==> Entry(other) == old(Entry(other))
    {
      attempts := attempts - {key};
    }

    /** The order of the calls in `login`; an unknown account fails like a wrong password. */
    method LogIn(key: string, l: Login, ghost h: History) returns (allowed: bool)
      requires h.entry == Entry(key)
      modifies this
      ensures Entry(key) == Step(h, l).entry && allowed == Check(h.entry, l.first, l.second).0
      ensures !allowed <==> old(Entry(key)).Some? && old(Entry(key)).value.failures >= MAX_FAILURES
                            && l.first <= old(Entry(key)).value.windowStarted + WINDOW
      ensures !allowed ==> Entry(key) == old(Entry(key))
      ensures allowed && l.correct ==> Entry(key) == None
      ensures allowed && !l.correct ==>
                var was := old(Entry(key));
                var goesOn := was.Some? && l.second <= was.value.windowStarted + WINDOW && l.done <= was.value.windowStarted + WINDOW;
                Entry(key) == Some(if goesOn then Attempt(was.value.windowStarted, was.value.failures + 1) else Attempt(l.done, 1))
      ensures forall other :: other != key ==> Entry(other) == old(Entry(other))
    {
      allowed := CheckLoginAllowed(key, l.first, l.second);
      if allowed {
        if l.correct {
          ClearFailedLogins(key);
        } else {
          RegisterFailedLogin(key, l.done);
        }
      }
    }
  }
}
