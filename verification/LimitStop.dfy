/** The limit-stop protocol (internal/ocpp16hal/limit_stop.go and internal/store/limit_stop_memory.go):
    claim a transaction that reached its limit, ask the charger to stop it, give the claim back when
    the attempts are used up. */
module LimitStop {
  import opened Wrappers
  import opened Rows

  const MAX_ATTEMPTS: nat := 6
  const INITIAL_RETRY: nat := 2
  const MAX_RETRY: nat := 30
  const CONFIRMATION_WAIT: nat := 30
  const POLL_INTERVAL: nat := 2

  function Doubling(n: nat): nat { if n == 0 then INITIAL_RETRY else 2 * Doubling(n - 1) }

  /** The pause after failed attempt `k` (counted from 1), in seconds: min(2 * 2^(k-1), 30). */
  function Delay(k: nat): nat
    requires k >= 1
  {
    if Doubling(k - 1) < MAX_RETRY then Doubling(k - 1) else MAX_RETRY
  }

  /** The pauses after the first `k` attempts together. */
  function Slept(k: nat): nat { if k == 0 then 0 else Slept(k - 1) + Delay(k) }

  lemma DelayDoubles(k: nat)
    requires 1 <= k
    ensures Delay(1) == INITIAL_RETRY
    ensures Delay(k + 1) == if 2 * Delay(k) > MAX_RETRY then MAX_RETRY else 2 * Delay(k)
  {
    assert Doubling(k) == 2 * Doubling(k - 1);
  }

  lemma {:induction false} SleptAtMostAMinute(k: nat)
    requires k < MAX_ATTEMPTS
    ensures Slept(k) <= Slept(MAX_ATTEMPTS - 1) == 60
  {
    DelayDoubles(1); DelayDoubles(2); DelayDoubles(3); DelayDoubles(4);
    assert Slept(5) == Slept(2) + Delay(3) + Delay(4) + Delay(5);
    assert Slept(2) == 6 && Slept(3) == 14 && Slept(4) == 30;
  }

  // ---------------------------------------------------------------- the protocol under interleaving

  datatype Phase = Top | Sending | Waiting(deadline: int) | Sleeping(until: int) | Exhausted

  /** One live retry loop, stopped between two of its store or network accesses. */
  datatype Worker = Worker(chargerID: string, id: int, attempt: nat, delay: nat, sent: nat, slept: nat, phase: Phase)

  datatype Check = Check(chargerID: string, id: int)

  /** Ghost history of the protocol. */
  datatype Event = Claimed(id: int) | Cleared(id: int) | StopSent(id: int)

  datatype Limits = Limits(
    checks: multiset<Check>,      // limit checks still owed for a write
    workers: map<nat, Worker>,    // live retry loops
    nextWorker: nat,
    excused: set<int>,            // given up (released, or the check failed or was lost) since the last write
    stuck: set<int>,              // lost their loop without a release
    log: seq<Event>)

  function StartWorker(charger: string, id: int): Worker {
    Worker(charger, id, 1, INITIAL_RETRY, 0, 0, Top)
  }

  function AfterAttempt(w: Worker, now: int): Worker {
    if w.attempt < MAX_ATTEMPTS then
      w.(slept := w.slept + w.delay, phase := Sleeping(now + w.delay),
         delay := if 2 * w.delay > MAX_RETRY then MAX_RETRY else 2 * w.delay)
    else w.(phase := Exhausted)
  }

  /** One step of a live loop that is not yet exhausted; None when the loop returns. `closed` is what a look
      at the row finds, if the step looks; a failed read finds nothing. */
  function WorkerNext(w: Worker, closed: bool, now: int, accepted: bool): Option<Worker> {
    match w.phase
    case Top => if closed then None else Some(w.(phase := Sending))
    case Sending =>
      var sent := w.(sent := w.sent + 1);
      Some(if accepted then sent.(phase := Waiting(now + CONFIRMATION_WAIT)) else AfterAttempt(sent, now))
    case Waiting(deadline) =>
      if now >= deadline then Some(AfterAttempt(w, now)) else if closed then None else Some(w)
    case Sleeping(until) => if now >= until then Some(w.(attempt := w.attempt + 1, phase := Top)) else Some(w)
    case Exhausted => Some(w)
  }

  /** A successful write by someone else: a live-meter or limit write owes a check. */
  function OnWrite(s: Limits, rows: Rows, op: Op): Limits {
    match op
    case LiveMeter(charger, id, _) =>
      if Known(rows, charger, id) then s.(checks := s.checks + multiset{Check(charger, id)},
          excused := s.excused - {id}) else s
    case SetMaxKWh(id, _) =>
      if id in rows && rows[id].chargerID != ""
      then s.(checks := s.checks + multiset{Check(rows[id].chargerID, id)}, excused := s.excused - {id}) else s
    case _ => s
  }

  /** CheckAndRequestLimitStop pays one owed check; the store access itself may fail. */
  function OnCheck(s: Limits, rows: Rows, charger: string, id: int, storeOK: bool): Limits
    requires Check(charger, id) in s.checks
  {
    var paid := s.(checks := s.checks - multiset{Check(charger, id)});
    if !storeOK then paid.(excused := paid.excused + {id})
    else if Known(rows, charger, id) && Claimable(rows[id]) then
      paid.(workers := paid.workers[paid.nextWorker := StartWorker(charger, id)],
            nextWorker := paid.nextWorker + 1, log := paid.log + [Claimed(id)])
    else paid
  }

  /** What a loop's look at its row finds. */
  predicate SeesClosed(rows: Rows, w: Worker, readOK: bool) {
    readOK && Known(rows, w.chargerID, w.id) && !rows[w.id].Open()
  }

  /** A loop's step; the release of an exhausted one may fail, and then nobody serves the claim any more. */
  function OnWorker(s: Limits, rows: Rows, g: nat, now: int, storeOK: bool, accepted: bool): Limits
    requires g in s.workers
  {
    var w := s.workers[g];
    if w.phase.Exhausted? then
      var done := s.(workers := s.workers - {g});
      if !storeOK then done.(stuck := done.stuck + {w.id})
      else if Known(rows, w.chargerID, w.id) && rows[w.id].Open()
      then done.(excused := done.excused + {w.id}, log := done.log + [Cleared(w.id)]) else done
    else
      var log := if w.phase.Sending? then s.log + [StopSent(w.id)] else s.log;
      match WorkerNext(w, SeesClosed(rows, w, storeOK), now, accepted)
      case None => s.(workers := s.workers - {g}, log := log)
      case Some(w') => s.(workers := s.workers[g := w'], log := log)
  }

  /** A restart of the central system: loops and owed checks are gone, the claims in the table stay. */
  ghost function Restarted(s: Limits): Limits {
    s.(workers := map[], checks := multiset{},
       excused := s.excused + (set c | c in s.checks :: c.id),
       stuck := s.stuck + (set g | g in s.workers :: s.workers[g].id))
  }

  // ---------------------------------------------------------------- the retry loop itself

  /** What one step of a loop meets: the row, the clock, the charger's answer. */
  datatype Input = Input(closed: bool, now: int, accepted: bool)

  function WorkerRun(w: Worker, run: seq<Input>): Option<Worker> {
    if run == [] then Some(w)
    else
      var last := run[|run| - 1];
      match WorkerRun(w, run[..|run| - 1])
      case None => None
      case Some(w') => WorkerNext(w', last.closed, last.now, last.accepted)
  }

  lemma OneMoreStep(w: Worker, run: seq<Input>, next: Input)
    ensures WorkerRun(w, run + [next])
         == match WorkerRun(w, run)
            case None => None
            case Some(w') => WorkerNext(w', next.closed, next.now, next.accepted)
  {
    assert (run + [next])[..|run|] == run;
  }

  /** Every look before this one found the row open. */
  ghost predicate NotSeen(closed: nat -> bool, looks: nat) { forall k: nat :: k < looks ==> !closed(k) }

  /** waitForTransactionClosed: look at the row every two seconds until the deadline. The looks are steps of
      the waiting loop `w`. */
  method WaitForTransactionClosed(closed: nat -> bool, first: nat, start: int, ghost origin: Worker, ghost w: Worker,
                                  ghost run: seq<Input>)
    returns (gone: bool, looks: nat, now: int, ghost more: seq<Input>)
    requires WorkerRun(origin, run) == Some(w) && w.phase == Waiting(start + CONFIRMATION_WAIT)
    requires NotSeen(closed, first)
    ensures first <= looks && start <= now
    ensures gone ==> looks > 0 && closed(looks - 1) && NotSeen(closed, looks - 1) && WorkerRun(origin, more) == None
    ensures !gone ==>
              NotSeen(closed, looks) && now >= start + CONFIRMATION_WAIT
              && WorkerRun(origin, more) == Some(AfterAttempt(w, now))
  {
    gone, looks, now, more := false, first, start, run;
    var deadline := start + CONFIRMATION_WAIT;
    while now < deadline
      invariant first <= looks && start <= now && NotSeen(closed, looks)
      invariant WorkerRun(origin, more) == Some(w)
      decreases deadline - now
    {
      var seen := closed(looks);
      looks := looks + 1;
      OneMoreStep(origin, more, Input(seen, now, false));
      more := more + [Input(seen, now, false)];
      if seen {
        gone := true;
        return;
      }
      now := now + POLL_INTERVAL;
    }
    OneMoreStep(origin, more, Input(false, now, false));
    more := more + [Input(false, now, false)];
  }

  /** One attempt after its look at the row: the RemoteStop and, if it is accepted, the confirmation wait. */
  method SendAndWait(ok: bool, takes: nat, closed: nat -> bool, first: nat, start: int, ghost w0: Worker,
                     ghost w: Worker, ghost run: seq<Input>)
    returns (gone: bool, looks: nat, now: int, ghost more: seq<Input>)
    requires WorkerRun(w0, run) == Some(w) && w.phase.Sending? && NotSeen(closed, first)
    ensures first <= looks && start <= now
    ensures gone ==> looks > 0 && closed(looks - 1) && NotSeen(closed, looks - 1) && WorkerRun(w0, more) == None
    ensures !gone ==>
              NotSeen(closed, looks) && WorkerRun(w0, more)
              == Some(AfterAttempt(w.(sent := w.sent + 1, phase := Waiting(0)), now))
  {
    gone, looks, now := false, first, start + takes;
    OneMoreStep(w0, run, Input(false, now, ok));
    more := run + [Input(false, now, ok)];
    if ok {
      ghost var waiting := w.(sent := w.sent + 1, phase := Waiting(now + CONFIRMATION_WAIT));
      gone, looks, now, more := WaitForTransactionClosed(closed, looks, now, w0, waiting, more);
    }
  }

  /** One attempt: a look at the row and, if it is open, the rest. */
  method AttemptOnce(ok: bool, takes: nat, closed: nat -> bool, first: nat, start: int, ghost w0: Worker,
                     ghost w: Worker, ghost run: seq<Input>)
    returns (sent: bool, gone: bool, looks: nat, now: int, ghost more: seq<Input>)
    requires WorkerRun(w0, run) == Some(w) && w.phase.Top? && NotSeen(closed, first)
    ensures first <= looks && start <= now && (sent || gone)
    ensures gone ==> looks > 0 && closed(looks - 1) && NotSeen(closed, looks - 1) && WorkerRun(w0, more) == None
    ensures !gone ==>
              NotSeen(closed, looks) && WorkerRun(w0, more)
              == Some(AfterAttempt(w.(sent := w.sent + 1, phase := Waiting(0)), now))
  {
    sent, now := false, start;
    gone := closed(first);
    looks := first + 1;
    OneMoreStep(w0, run, Input(gone, now, false));
    more := run + [Input(gone, now, false)];
    if !gone {
      sent := true;
      gone, looks, now, more := SendAndWait(ok, takes, closed, looks, now, w0, w.(phase := Sending), more);
    }
  }

  method NextDelay(attempt: nat, delay: nat) returns (next: nat)
    requires 1 <= attempt && delay == Delay(attempt)
    ensures next == Delay(attempt + 1) == if 2 * delay > MAX_RETRY then MAX_RETRY else 2 * delay
  {
    DelayDoubles(attempt);
    next := delay * 2;
    if next > MAX_RETRY {
      next := MAX_RETRY;
    }
  }

  lemma SleptOneMore(attempt: nat)
    requires 1 <= attempt <= MAX_ATTEMPTS
    ensures Slept(attempt) == Slept(attempt - 1) + Delay(attempt) && Slept(attempt - 1) <= 60
  {
    SleptAtMostAMinute(attempt - 1);
  }

  lemma WakesUp(w0: Worker, w: Worker, run: seq<Input>, now: int)
    requires WorkerRun(w0, run) == Some(w) && w.phase == Sleeping(now)
    ensures WorkerRun(w0, run + [Input(false, now, false)]) == Some(w.(attempt := w.attempt + 1, phase := Top))
  {
    OneMoreStep(w0, run, Input(false, now, false));
  }

  /** requestLimitStopUntilClosed up to the release. `closed(k)` is what its k-th look at the row finds,
      `accepted(k)` the answer to its k-th RemoteStop, `takes(k)` how long that call lasts. Against every
      environment it is a run of the step function above; it ends when it sees the row closed, or exhausted
      after six stops and a minute of doubling pauses. */
  method RequestLimitStopUntilClosed(charger: string, id: int, closed: nat -> bool, accepted: nat -> bool,
                                     takes: nat -> nat, start: int)
    returns (stops: nat, pauses: seq<nat>, slept: nat, looks: nat, exhausted: bool, ghost run: seq<Input>)
    ensures stops <= MAX_ATTEMPTS && slept <= 60
    ensures forall i :: 0 <= i < |pauses| ==> pauses[i] == Delay(i + 1)
    ensures !exhausted ==>
              looks > 0 && closed(looks - 1) && NotSeen(closed, looks - 1)
              && WorkerRun(StartWorker(charger, id), run) == None
    ensures exhausted ==>
              && stops == MAX_ATTEMPTS && slept == 60 && NotSeen(closed, looks)
              && WorkerRun(StartWorker(charger, id), run).Some?
                   && WorkerRun(StartWorker(charger, id), run).value.phase.Exhausted?
  {
    ghost var w0 := StartWorker(charger, id);
    ghost var w := w0;
    var delay, now := INITIAL_RETRY, start;
    stops, pauses, slept, looks, exhausted, run := 0, [], 0, 0, false, [];
    var attempt: nat := 1;
    while attempt <= MAX_ATTEMPTS
      invariant 1 <= attempt <= MAX_ATTEMPTS + 1 && stops == attempt - 1 && NotSeen(closed, looks)
      invariant WorkerRun(w0, run) == Some(w)
      invariant attempt <= MAX_ATTEMPTS ==>
                  w.phase.Top? && w.attempt == attempt && w.delay == delay == Delay(attempt)
                  && |pauses| == attempt - 1
      invariant attempt == MAX_ATTEMPTS + 1 ==> w.phase.Exhausted?
      invariant slept == Slept(if attempt <= MAX_ATTEMPTS then attempt - 1 else MAX_ATTEMPTS - 1)
      invariant forall i :: 0 <= i < |pauses| ==> pauses[i] == Delay(i + 1)
    {
      SleptOneMore(attempt);
      var sent, gone;
      sent, gone, looks, now, run := AttemptOnce(accepted(stops), takes(stops), closed, looks, now, w0, w, run);
      if sent {
        stops := stops + 1;
      }
      if gone {
        return;
      }
      w := AfterAttempt(w.(sent := w.sent + 1, phase := Waiting(0)), now);
      if attempt < MAX_ATTEMPTS {
        now := now + delay;
        WakesUp(w0, w, run, now);
        run := run + [Input(false, now, false)];
        w := w.(attempt := w.attempt + 1, phase := Top);
        pauses, slept := pauses + [delay], slept + delay;
        delay := NextDelay(attempt, delay);
      }
      attempt := attempt + 1;
    }
    SleptAtMostAMinute(MAX_ATTEMPTS - 1);
    exhausted := true;
  }

  // ---------------------------------------------------------------- history predicates

  /** The claim is held after the events of `log`. */
  function Held(log: seq<Event>, id: int): bool {
    if log == [] then false
    else
      var last := log[|log| - 1];
      if last == Claimed(id) then true
      else if last == Cleared(id) then false
      else Held(log[..|log| - 1], id)
  }

  /** RemoteStops sent for `id` since its last claim. */
  function SendsSince(log: seq<Event>, id: int): nat {
    if log == [] then 0
    else
      var last := log[|log| - 1];
      if last == Claimed(id) then 0
      else SendsSince(log[..|log| - 1], id) + if last == StopSent(id) then 1 else 0
  }

  predicate EventOK(before: seq<Event>, e: Event) {
    match e
    case Claimed(id) => !Held(before, id)
    case Cleared(id) => Held(before, id)
    case StopSent(id) => Held(before, id) && SendsSince(before, id) < MAX_ATTEMPTS
  }

  predicate LogOK(log: seq<Event>) {
    forall j :: 0 <= j < |log| ==> EventOK(log[..j], log[j])
  }

  lemma LogGrows(log: seq<Event>, e: Event)
    requires LogOK(log) && EventOK(log, e)
    ensures LogOK(log + [e])
    ensures forall id :: Held(log + [e], id) == (if e == Claimed(id) then true else if e == Cleared(id) then false
              else Held(log, id))
    ensures forall id :: SendsSince(log + [e], id)
                         == (if e == Claimed(id) then 0 else SendsSince(log, id) + if e == StopSent(id) then 1 else 0)
  {
    assert (log + [e])[..|log|] == log;
    forall j | 0 <= j < |log| ensures (log + [e])[..j] == log[..j] {}
  }

  lemma {:induction false} HeldBetween(log: seq<Event>, i: nat, j: nat, id: int)
    requires i < j <= |log| && log[i] == Claimed(id)
    requires forall k :: i < k < j ==> log[k] != Cleared(id)
    ensures Held(log[..j], id)
    decreases j
  {
    assert log[..j][..j - 1] == log[..j - 1];
    if i + 1 < j { HeldBetween(log, i, j - 1, id); }
  }

  /** Between two successful claims of a transaction the claim was given back. */
  lemma ReleaseBetweenClaims(log: seq<Event>, i: nat, j: nat, id: int)
    requires LogOK(log) && i < j < |log| && log[i] == Claimed(id) && log[j] == Claimed(id)
    ensures exists k :: i < k < j && log[k] == Cleared(id)
  {
    assert EventOK(log[..j], log[j]);
    if forall k :: i < k < j ==> log[k] != Cleared(id) {
      HeldBetween(log, i, j, id);
    }
  }

  /** A claim sends at most six RemoteStops, at every point of its life. */
  lemma {:induction false} AtMostSixStops(log: seq<Event>, j: nat, id: int)
    requires LogOK(log) && j <= |log|
    ensures SendsSince(log[..j], id) <= MAX_ATTEMPTS
  {
    if j > 0 {
      AtMostSixStops(log, j - 1, id);
      assert log[..j][..j - 1] == log[..j - 1];
      assert EventOK(log[..j - 1], log[j - 1]);
    }
  }

  // ---------------------------------------------------------------- the invariant

  /** Where a loop stands decides how much it has sent and slept. */
  predicate WorkerOK(rows: Rows, w: Worker, log: seq<Event>) {
    && w.id in rows && rows[w.id].chargerID == w.chargerID && rows[w.id].limitStopRequested
    && 1 <= w.attempt <= MAX_ATTEMPTS
    && SendsSince(log, w.id) == w.sent
    && (w.phase.Top? || w.phase.Sending? ==>
          w.sent == w.attempt - 1 && w.delay == Delay(w.attempt) && w.slept == Slept(w.attempt - 1))
    && (w.phase.Waiting? || w.phase.Exhausted? ==> w.sent == w.attempt && w.slept == Slept(w.attempt - 1))
    && (w.phase.Waiting? ==> w.delay == Delay(w.attempt))
    && (w.phase.Sleeping? ==>
          w.sent == w.attempt < MAX_ATTEMPTS && w.delay == Delay(w.attempt + 1) && w.slept == Slept(w.attempt))
    && (w.phase.Exhausted? ==> w.attempt == MAX_ATTEMPTS)
  }

  /** Limit reached, nobody acting on it, and no check owed. */
  predicate Missed(rows: Rows, s: Limits, id: int)
    requires id in rows
  {
    && rows[id].Open() && rows[id].OverLimit() && rows[id].chargerID != ""
    && !rows[id].limitStopRequested
    && Check(rows[id].chargerID, id) !in s.checks
    && id !in s.excused
  }

  ghost predicate HasWorker(s: Limits, id: int) {
    exists g :: g in s.workers && s.workers[g].id == id
  }

  ghost predicate NoneMissed(rows: Rows, s: Limits) {
    forall id :: id in rows ==> !Missed(rows, s, id)
  }

  ghost predicate WorkersOK(rows: Rows, workers: map<nat, Worker>, log: seq<Event>) {
    forall g :: g in workers ==> WorkerOK(rows, workers[g], log)
  }

  /** At most one loop per transaction. */
  ghost predicate OneLoopEach(workers: map<nat, Worker>) {
    forall g, h :: g in workers && h in workers && workers[g].id == workers[h].id ==> g == h
  }

  /** Every claim of an open row has its loop, unless the loop was lost. */
  ghost predicate ClaimsServed(rows: Rows, s: Limits) {
    forall id :: id in rows && rows[id].Open() && rows[id].limitStopRequested ==> HasWorker(s, id) || id in s.stuck
  }

  /** The claim flags are what the history says. */
  ghost predicate FlagsHeld(rows: Rows, log: seq<Event>) {
    forall id :: Held(log, id) <==> id in rows && rows[id].limitStopRequested
  }

  ghost predicate LimitInv(rows: Rows, s: Limits) {
    && NoneMissed(rows, s)
    && (forall g :: g in s.workers ==> g < s.nextWorker)
    && WorkersOK(rows, s.workers, s.log)
    && OneLoopEach(s.workers)
    && ClaimsServed(rows, s)
    && FlagsHeld(rows, s.log)
    && LogOK(s.log)
  }

  lemma LoopsRemain(s: Limits, s': Limits)
    requires forall g :: g in s.workers ==> g in s'.workers && s'.workers[g].id == s.workers[g].id
    ensures forall x :: HasWorker(s, x) ==> HasWorker(s', x)
  {
    forall x | HasWorker(s, x) ensures HasWorker(s', x) {
      var g :| g in s.workers && s.workers[g].id == x;
      assert s'.workers[g].id == x;
    }
  }

  /** Bookkeeping on checks and excuses alone. */
  lemma BooksKeepLimitInv(rows: Rows, s: Limits, s': Limits)
    requires LimitInv(rows, s) && s' == s.(checks := s'.checks, excused := s'.excused) && NoneMissed(rows, s')
    ensures LimitInv(rows, s')
  {
    LoopsRemain(s, s');
  }

  /** A write that keeps a row's charger and flag and does not reopen it is harmless if it owes a check. */
  lemma RowWriteKeepsLimitInv(rows: Rows, s: Limits, id: int, row: Transaction, s': Limits)
    requires LimitInv(rows, s) && id in rows
    requires row.chargerID == rows[id].chargerID && row.limitStopRequested == rows[id].limitStopRequested
    requires row.Open() ==> rows[id].Open()
    requires s' == s.(checks := s'.checks, excused := s'.excused)
    requires s.checks <= s'.checks && s.excused - {id} <= s'.excused
    requires !Missed(rows[id := row], s', id)
    ensures LimitInv(rows[id := row], s')
  {
    forall x | x in rows && x != id ensures !Missed(rows[id := row], s', x) {
      assert !Missed(rows, s, x);
    }
    forall g | g in s.workers ensures WorkerOK(rows[id := row], s'.workers[g], s'.log) {
      assert WorkerOK(rows, s.workers[g], s.log);
    }
    LoopsRemain(s, s');
  }

  /** Writes by handlers, recovery and the hook worker. */
  lemma WriteKeepsLimitInv(t: Table, s: Limits, op: Op, now: int)
    requires LimitInv(t.rows, s) && !op.CheckLimit? && !op.Release?
    ensures LimitInv(Apply(t, op, now).rows, OnWrite(s, t.rows, op))
  {
    if op.Create? {
      FirstFreeIsFree(t.rows, op.draws);
      var id := FirstFree(t.rows, op.draws);
      if id.Some? { NewRowKeepsLimitInv(t.rows, s, id.value, NewRow(t.nextRowID, op.uuid, op.request, id.value, now)); }
    } else if op.id in t.rows {
      assert !Missed(t.rows, s, op.id);
      RowWriteKeepsLimitInv(t.rows, s, op.id, Effect(t.rows[op.id], op, now), OnWrite(s, t.rows, op));
    }
  }

  lemma NewRowKeepsLimitInv(rows: Rows, s: Limits, id: int, row: Transaction)
    requires LimitInv(rows, s) && id !in rows
    requires row.maxKWh.None? && !row.limitStopRequested
    ensures LimitInv(rows[id := row], s)
  {
    forall x | x in rows ensures !Missed(rows[id := row], s, x) {
      assert !Missed(rows, s, x);
    }
    forall g | g in s.workers ensures WorkerOK(rows[id := row], s.workers[g], s.log) {
      assert WorkerOK(rows, s.workers[g], s.log);
    }
    assert !Held(s.log, id);
  }

  /** A worker of another transaction does not mind this row or this event. */
  lemma OtherWorkerOK(rows: Rows, w: Worker, log: seq<Event>, id: int, row: Transaction, e: Event)
    requires WorkerOK(rows, w, log) && w.id != id && LogOK(log) && EventOK(log, e) && e.id == id
    ensures WorkerOK(rows[id := row], w, log + [e])
  {
    LogGrows(log, e);
  }

  /** A successful claim: the flag was clear, so no loop of this transaction is alive. */
  lemma ClaimKeepsLimitInv(rows: Rows, s: Limits, charger: string, id: int)
    requires LimitInv(rows, s) && Check(charger, id) in s.checks
    requires Known(rows, charger, id) && Claimable(rows[id])
    ensures LimitInv(rows[id := rows[id].(limitStopRequested := true)], OnCheck(s, rows, charger, id, true))
  {
    var rows' := rows[id := rows[id].(limitStopRequested := true)];
    var s' := OnCheck(s, rows, charger, id, true);
    assert !Held(s.log, id);
    LogGrows(s.log, Claimed(id));
    forall g | g in s.workers ensures s.workers[g].id != id && WorkerOK(rows', s.workers[g], s'.log) {
      assert WorkerOK(rows, s.workers[g], s.log);
      OtherWorkerOK(rows, s.workers[g], s.log, id, rows'[id], Claimed(id));
    }
    assert WorkerOK(rows', StartWorker(charger, id), s'.log);
    forall x | x in rows ensures !Missed(rows', s', x) { assert !Missed(rows, s, x); }
    assert s'.workers[s.nextWorker].id == id;
    LoopsRemain(s, s');
  }

  /** Paying an owed check: it claims, or fails and is excused, or finds nothing to claim. */
  lemma CheckKeepsLimitInv(t: Table, s: Limits, charger: string, id: int, storeOK: bool, now: int)
    requires LimitInv(t.rows, s) && Check(charger, id) in s.checks
    ensures LimitInv(if storeOK then Apply(t, CheckLimit(charger, id), now).rows else t.rows,
                     OnCheck(s, t.rows, charger, id, storeOK))
  {
    if storeOK && Known(t.rows, charger, id) && Claimable(t.rows[id]) {
      ClaimKeepsLimitInv(t.rows, s, charger, id);
    } else {
      var s' := OnCheck(s, t.rows, charger, id, storeOK);
      forall x | x in t.rows ensures !Missed(t.rows, s', x) { assert !Missed(t.rows, s, x); }
      BooksKeepLimitInv(t.rows, s, s');
      if id in t.rows { assert t.rows[id := t.rows[id]] == t.rows; }
    }
  }

  lemma OthersKeepTheirLoops(s: Limits, s': Limits, id: int)
    requires forall h :: h in s.workers && s.workers[h].id != id ==> h in s'.workers && s'.workers[h] == s.workers[h]
    ensures forall x :: HasWorker(s, x) && x != id ==> HasWorker(s', x)
  {
    forall x | HasWorker(s, x) && x != id ensures HasWorker(s', x) {
      var h :| h in s.workers && s.workers[h].id == x;
      assert s'.workers[h].id == x;
    }
  }

  /** The last step of an exhausted loop gives the claim back ... */
  lemma ReleaseKeepsLimitInv(rows: Rows, s: Limits, g: nat, now: int)
    requires LimitInv(rows, s) && g in s.workers && s.workers[g].phase.Exhausted?
    requires s.workers[g].id in rows && rows[s.workers[g].id].Open()
    ensures var id := s.workers[g].id;
            LimitInv(rows[id := rows[id].(limitStopRequested := false)], OnWorker(s, rows, g, now, true, true))
  {
    var id := s.workers[g].id;
    assert WorkerOK(rows, s.workers[g], s.log);
    var rows' := rows[id := rows[id].(limitStopRequested := false)];
    var s' := OnWorker(s, rows, g, now, true, true);
    LogGrows(s.log, Cleared(id));
    forall h | h in s'.workers ensures s.workers[h].id != id && WorkerOK(rows', s'.workers[h], s'.log) {
      assert WorkerOK(rows, s.workers[h], s.log);
      OtherWorkerOK(rows, s.workers[h], s.log, id, rows'[id], Cleared(id));
    }
    forall x | x in rows' ensures !Missed(rows', s', x) { assert !Missed(rows, s, x); }
    OthersKeepTheirLoops(s, s', id);
  }

  /** ... unless the row has closed meanwhile: then the flag stays. */
  lemma LateReleaseKeepsLimitInv(rows: Rows, s: Limits, g: nat, now: int)
    requires LimitInv(rows, s) && g in s.workers && s.workers[g].phase.Exhausted?
    requires s.workers[g].id in rows && !rows[s.workers[g].id].Open()
    ensures LimitInv(rows, OnWorker(s, rows, g, now, true, true))
  {
    var s' := OnWorker(s, rows, g, now, true, true);
    forall x | x in rows ensures !Missed(rows, s', x) { assert !Missed(rows, s, x); }
    OthersKeepTheirLoops(s, s', s.workers[g].id);
  }

  /** ... or the release fails: then the claim stays without a loop. */
  lemma FailedReleaseKeepsLimitInv(rows: Rows, s: Limits, g: nat, now: int)
    requires LimitInv(rows, s) && g in s.workers && s.workers[g].phase.Exhausted?
    ensures LimitInv(rows, OnWorker(s, rows, g, now, false, true))
  {
    var s' := OnWorker(s, rows, g, now, false, true);
    forall x | x in rows ensures !Missed(rows, s', x) { assert !Missed(rows, s, x); }
    OthersKeepTheirLoops(s, s', s.workers[g].id);
  }

  lemma RestartKeepsLimitInv(rows: Rows, s: Limits)
    requires LimitInv(rows, s)
    ensures LimitInv(rows, Restarted(s))
  {
    var s' := Restarted(s);
    forall x | x in rows ensures !Missed(rows, s', x) {
      assert !Missed(rows, s, x);
      if Check(rows[x].chargerID, x) in s.checks { assert Check(rows[x].chargerID, x).id in s'.excused; }
    }
    forall x | HasWorker(s, x) ensures x in s'.stuck {
      var g :| g in s.workers && s.workers[g].id == x;
      assert s.workers[g].id in s'.stuck;
    }
  }

  /** Every step of a loop, with the store operation it makes. */
  lemma WorkerKeepsLimitInv(t: Table, s: Limits, g: nat, now: int, storeOK: bool, accepted: bool)
    requires LimitInv(t.rows, s) && g in s.workers
    ensures var w := s.workers[g];
            LimitInv(if w.phase.Exhausted? && storeOK then Apply(t, Release(w.chargerID, w.id), now).rows else t.rows,
                     OnWorker(s, t.rows, g, now, storeOK, accepted))
  {
    var w := s.workers[g];
    assert WorkerOK(t.rows, w, s.log);
    if !w.phase.Exhausted? {
      LoopKeepsLimitInv(t.rows, s, g, now, storeOK, accepted);
    } else if !storeOK {
      FailedReleaseKeepsLimitInv(t.rows, s, g, now);
    } else if t.rows[w.id].Open() {
      ReleaseKeepsLimitInv(t.rows, s, g, now);
    } else {
      LateReleaseKeepsLimitInv(t.rows, s, g, now);
      assert t.rows[w.id := t.rows[w.id]] == t.rows;
    }
  }

  /** A failed attempt leaves the loop asleep, or exhausted. */
  lemma AfterAttemptOK(rows: Rows, w: Worker, log: seq<Event>, now: int)
    requires WorkerOK(rows, w.(phase := Waiting(now)), log)
    ensures WorkerOK(rows, AfterAttempt(w, now), log)
  {
    DelayDoubles(w.attempt);
  }

  lemma SendingNextOK(rows: Rows, w: Worker, log: seq<Event>, now: int, closed: bool, accepted: bool)
    requires LogOK(log) && WorkerOK(rows, w, log) && w.phase.Sending? && Held(log, w.id)
    ensures var next := WorkerNext(w, closed, now, accepted);
            LogOK(log + [StopSent(w.id)]) && next.Some? && WorkerOK(rows, next.value, log + [StopSent(w.id)])
                && next.value.id == w.id
  {
    LogGrows(log, StopSent(w.id));
    AfterAttemptOK(rows, w.(sent := w.sent + 1), log + [StopSent(w.id)], now);
  }

  lemma QuietNextOK(rows: Rows, w: Worker, log: seq<Event>, now: int, closed: bool, accepted: bool)
    requires closed ==> w.id in rows && !rows[w.id].Open()
    requires WorkerOK(rows, w, log) && !w.phase.Exhausted? && !w.phase.Sending?
    ensures var next := WorkerNext(w, closed, now, accepted);
            && (next.Some? ==> WorkerOK(rows, next.value, log) && next.value.id == w.id)
            && (next.None? ==> !rows[w.id].Open())
  {
    if w.phase.Waiting? { AfterAttemptOK(rows, w, log, now); }
  }

  lemma WorkerNextOK(rows: Rows, w: Worker, log: seq<Event>, now: int, closed: bool, accepted: bool)
    requires closed ==> w.id in rows && !rows[w.id].Open()
    requires LogOK(log) && WorkerOK(rows, w, log) && !w.phase.Exhausted?
    requires Held(log, w.id)
    ensures var log' := if w.phase.Sending? then log + [StopSent(w.id)] else log;
            var next := WorkerNext(w, closed, now, accepted);
            && LogOK(log')
            && (next.Some? ==> WorkerOK(rows, next.value, log') && next.value.id == w.id)
            && (next.None? ==> !rows[w.id].Open() && log' == log)
  {
    if w.phase.Sending? {
      SendingNextOK(rows, w, log, now, closed, accepted);
    } else {
      QuietNextOK(rows, w, log, now, closed, accepted);
    }
  }

  lemma SameSendsSameWorker(rows: Rows, w: Worker, log: seq<Event>, log': seq<Event>)
    requires WorkerOK(rows, w, log) && SendsSince(log', w.id) == SendsSince(log, w.id)
    ensures WorkerOK(rows, w, log')
  {}

  lemma NextKeepsWorkers(rows: Rows, workers: map<nat, Worker>, before: seq<Event>, g: nat, next: Worker,
                         log: seq<Event>)
    requires WorkersOK(rows, workers, before) && OneLoopEach(workers) && g in workers && next.id == workers[g].id
    requires WorkerOK(rows, next, log)
    requires forall id :: id != next.id ==> SendsSince(log, id) == SendsSince(before, id)
    ensures WorkersOK(rows, workers[g := next], log) && OneLoopEach(workers[g := next])
  {
    forall h | h in workers && h != g ensures WorkerOK(rows, workers[h], log) {
      assert workers[h].id != next.id && WorkerOK(rows, workers[h], before);
      SameSendsSameWorker(rows, workers[h], before, log);
    }
  }

  /** A loop goes on: only its own record and its own sends change. */
  lemma NextKeepsLimitInv(rows: Rows, s: Limits, g: nat, next: Worker, log: seq<Event>)
    requires LimitInv(rows, s) && g in s.workers && next.id == s.workers[g].id
    requires LogOK(log) && WorkerOK(rows, next, log)
    requires forall id :: Held(log, id) == Held(s.log, id)
    requires forall id :: id != next.id ==> SendsSince(log, id) == SendsSince(s.log, id)
    ensures LimitInv(rows, s.(workers := s.workers[g := next], log := log))
  {
    var s' := s.(workers := s.workers[g := next], log := log);
    NextKeepsWorkers(rows, s.workers, s.log, g, next, log);
    forall x | x in rows ensures !Missed(rows, s', x) { assert !Missed(rows, s, x); }
    LoopsRemain(s, s');
  }

  /** A loop ends because its transaction is closed. */
  lemma EndKeepsLimitInv(rows: Rows, s: Limits, g: nat)
    requires LimitInv(rows, s) && g in s.workers && s.workers[g].id in rows && !rows[s.workers[g].id].Open()
    ensures LimitInv(rows, s.(workers := s.workers - {g}))
  {
    var s' := s.(workers := s.workers - {g});
    forall x | x in rows ensures !Missed(rows, s', x) { assert !Missed(rows, s, x); }
    OthersKeepTheirLoops(s, s', s.workers[g].id);
  }

  /** Any other step of a loop. */
  lemma LoopKeepsLimitInv(rows: Rows, s: Limits, g: nat, now: int, storeOK: bool, accepted: bool)
    requires LimitInv(rows, s) && g in s.workers && !s.workers[g].phase.Exhausted?
    ensures LimitInv(rows, OnWorker(s, rows, g, now, storeOK, accepted))
  {
    var w := s.workers[g];
    assert WorkerOK(rows, w, s.log);
    WorkerNextOK(rows, w, s.log, now, SeesClosed(rows, w, storeOK), accepted);
    var next := WorkerNext(w, SeesClosed(rows, w, storeOK), now, accepted);
    if next.None? {
      EndKeepsLimitInv(rows, s, g);
    } else if w.phase.Sending? {
      LogGrows(s.log, StopSent(w.id));
      NextKeepsLimitInv(rows, s, g, next.value, s.log + [StopSent(w.id)]);
    } else {
      NextKeepsLimitInv(rows, s, g, next.value, s.log);
    }
  }
}
