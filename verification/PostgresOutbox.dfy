/** The Postgres outbox under any number of workers (internal/store/outbox_postgres.go and processOnce in
    internal/hooks/manager.go). Each SQL statement, or committed SQL transaction, is one step. A claimed row
    is leased for two minutes; after that anyone may claim it again, because its worker may have died. */
module PostgresOutbox {
  import O = Outbox

  const LEASE := 120
  const BATCH := 10
  /** A task takes less than this: the HTTP client gives up after 10 seconds. */
  const TASK_LIMIT := 12

  datatype Row = Row(entry: O.Entry, updatedAt: int)

  /** A worker in processOnce: the tasks still to do, when it claimed them, when it began the first. */
  datatype Worker = Worker(batch: seq<O.Task>, claimedAt: int, beganAt: int)

  datatype State = State(now: int, rows: map<int, Row>, workers: map<nat, Worker>)

  datatype Event =
    | Wait(seconds: nat)
    | Insert(id: int, key: O.Key)
    | Claim(w: nat, ids: seq<int>)
    | Finish(w: nat, outcome: O.Outcome, markOK: bool)   // markOK: the UPDATE that marks it succeeds
    | Crash(w: nat)

  predicate Claimable(row: Row, now: int) {
    row.entry.Due(now) || (row.entry.status.Processing? && row.updatedAt <= now - LEASE)
  }

  predicate Working(s: State, w: nat) { w in s.workers && s.workers[w].batch != [] }

  predicate Distinct(ids: seq<int>) { forall i, j :: 0 <= i < j < |ids| ==> ids[i] != ids[j] }

  ghost predicate Enabled(s: State, e: Event) {
    match e
    case Wait(_) => true
    case Insert(id, _) => id !in s.rows
    case Claim(w, ids) =>
      !Working(s, w) && Distinct(ids) && 0 < |ids| <= BATCH
      && forall i :: 0 <= i < |ids| ==> ids[i] in s.rows && Claimable(s.rows[ids[i]], s.now)
    case Finish(w, _, _) => Working(s, w) && s.workers[w].batch[0].id in s.rows
    case Crash(w) => w in s.workers
  }

  function Tasks(rows: map<int, Row>, ids: seq<int>): seq<O.Task>
    requires forall i :: 0 <= i < |ids| ==> ids[i] in rows
  {
    seq(|ids|, i requires 0 <= i < |ids| => O.TaskOf(ids[i], rows[ids[i]].entry))
  }

  ghost function Next(s: State, e: Event): State
    requires Enabled(s, e)
  {
    match e
    case Wait(d) => s.(now := s.now + d)
    case Insert(id, key) => s.(rows := s.rows[id := Row(O.Fresh(key, s.now), s.now)])
    case Claim(w, ids) =>
      s.(rows := map id | id in s.rows :: if id in ids then Row(s.rows[id].entry.(status := O.Processing), s.now)
          else s.rows[id],
         workers := s.workers[w := Worker(Tasks(s.rows, ids), s.now, s.now)])
    case Finish(w, outcome, markOK) =>
      var me := s.workers[w];
      var task := me.batch[0];
      var row := s.rows[task.id];
      s.(rows := if markOK then s.rows[task.id := Row(O.Settle(row.entry, task, outcome, s.now), s.now)] else s.rows,
         workers := s.workers[w := me.(batch := me.batch[1..], beganAt := s.now)])
    case Crash(w) => s.(workers := s.workers - {w})
  }

  /** No unfinished batch has outlived its lease. */
  ghost predicate Timely(s: State) {
    forall w :: Working(s, w) ==> s.now < s.workers[w].claimedAt + LEASE
  }

  // ---------------------------------------------------------------- the lease invariant

  ghost predicate Holds(s: State, w: nat, i: int, id: int) {
    w in s.workers && 0 <= i < |s.workers[w].batch| && s.workers[w].batch[i].id == id
  }

  /** A held row still carries the lease of its holder. */
  predicate Leased(s: State, me: Worker, task: O.Task) {
    && task.id in s.rows && s.rows[task.id].entry.status.Processing?
    && s.rows[task.id].updatedAt == me.claimedAt
    && O.TaskOf(task.id, s.rows[task.id].entry) == task
  }

  ghost predicate LeaseInv(s: State) {
    && (forall w, i :: w in s.workers && 0 <= i < |s.workers[w].batch| ==>
          Leased(s, s.workers[w], s.workers[w].batch[i]))
    && (forall v, i, w, j, id :: Holds(s, v, i, id) && Holds(s, w, j, id) ==> v == w && i == j)
    && (forall id :: id in s.rows ==> O.EntryOK(s.rows[id].entry))
  }

  /** A held row can be claimed by someone else exactly when its lease has run out. */
  lemma StolenIff(s: State, w: nat, i: nat)
    requires LeaseInv(s) && w in s.workers && i < |s.workers[w].batch|
    ensures s.workers[w].batch[i].id in s.rows
    ensures Claimable(s.rows[s.workers[w].batch[i].id], s.now) <==> s.now >= s.workers[w].claimedAt + LEASE
  {
    assert Leased(s, s.workers[w], s.workers[w].batch[i]);
  }

  lemma ClaimKeepsLease(s: State, w: nat, ids: seq<int>)
    requires LeaseInv(s) && Timely(s) && Enabled(s, Claim(w, ids))
    ensures LeaseInv(Next(s, Claim(w, ids)))
  {
    var s' := Next(s, Claim(w, ids));
    forall v, i | v in s.workers && v != w && 0 <= i < |s.workers[v].batch|
      ensures s.workers[v].batch[i].id !in ids && Leased(s', s'.workers[v], s'.workers[v].batch[i])
    {
      assert Leased(s, s.workers[v], s.workers[v].batch[i]);
      assert Working(s, v);
      StolenIff(s, v, i);
    }
    forall v, i, u, j, id | Holds(s', v, i, id) && Holds(s', u, j, id) ensures v == u && i == j {
      if v != w && u != w { assert Holds(s, v, i, id) && Holds(s, u, j, id); }
    }
  }

  lemma FinishKeepsLease(s: State, w: nat, outcome: O.Outcome, markOK: bool)
    requires LeaseInv(s) && Timely(s) && Enabled(s, Finish(w, outcome, markOK))
    ensures LeaseInv(Next(s, Finish(w, outcome, markOK)))
  {
    var s' := Next(s, Finish(w, outcome, markOK));
    var me := s.workers[w];
    assert Leased(s, me, me.batch[0]);
    forall v, i: int, id | Holds(s', v, i, id) ensures Holds(s, v, if v == w then i + 1 else i, id) {}
    assert Holds(s, w, 0, me.batch[0].id);
    forall v, i | v in s'.workers && 0 <= i < |s'.workers[v].batch|
        ensures Leased(s', s'.workers[v], s'.workers[v].batch[i]) {
      var k := if v == w then i + 1 else i;
      assert Leased(s, s.workers[v], s.workers[v].batch[k]);
      assert Holds(s', v, i, s'.workers[v].batch[i].id);
    }
    forall v, i, u, j, id | Holds(s', v, i, id) && Holds(s', u, j, id) ensures v == u && i == j {}
  }

  lemma StepKeepsLease(s: State, e: Event)
    requires LeaseInv(s) && Timely(s) && Enabled(s, e)
    ensures LeaseInv(Next(s, e))
  {
    match e
    case Claim(w, ids) => ClaimKeepsLease(s, w, ids);
    case Finish(w, outcome, markOK) => FinishKeepsLease(s, w, outcome, markOK);
    case _ => OtherKeepsLease(s, e);
  }

  lemma OtherKeepsLease(s: State, e: Event)
    requires LeaseInv(s) && Enabled(s, e) && !e.Claim? && !e.Finish?
    ensures LeaseInv(Next(s, e))
  {
    var s' := Next(s, e);
    forall v, i, id | Holds(s', v, i, id) ensures Holds(s, v, i, id) {}
    forall v, i | v in s'.workers && 0 <= i < |s'.workers[v].batch|
        ensures Leased(s', s'.workers[v], s'.workers[v].batch[i]) {
      assert Leased(s, s.workers[v], s.workers[v].batch[i]);
    }
  }

  /** No step of a timely run touches a settled row. */
  lemma SettledStep(s: State, e: Event, id: int)
    requires LeaseInv(s) && Timely(s) && Enabled(s, e) && id in s.rows && s.rows[id].entry.Terminal()
    ensures id in Next(s, e).rows && Next(s, e).rows[id] == s.rows[id]
  {
    if e.Finish? { assert Leased(s, s.workers[e.w], s.workers[e.w].batch[0]); }
  }

  // ---------------------------------------------------------------- runs

  ghost predicate ValidRun(s: State, es: seq<Event>)
    decreases |es|
  {
    Timely(s) && (es == [] || (Enabled(s, es[0]) && ValidRun(Next(s, es[0]), es[1..])))
  }

  ghost function Run(s: State, es: seq<Event>): State
    requires ValidRun(s, es)
    decreases |es|
  {
    if es == [] then s else Run(Next(s, es[0]), es[1..])
  }

  /** Over every run in which batches finish inside their lease, no row is held twice, by one worker or by
      two, and a row once sent or fatal is never claimed or touched again. */
  lemma {:induction false} LeaseIsExclusive(s: State, es: seq<Event>)
    requires LeaseInv(s) && ValidRun(s, es)
    ensures LeaseInv(Run(s, es))
    ensures forall v, i, w, j, id :: Holds(Run(s, es), v, i, id) && Holds(Run(s, es), w, j, id) ==> v == w && i == j
    ensures forall id :: id in s.rows && s.rows[id].entry.Terminal() ==>
              id in Run(s, es).rows
              && Run(s, es).rows[id] == s.rows[id]
    decreases |es|
  {
    if es != [] {
      StepKeepsLease(s, es[0]);
      forall id | id in s.rows && s.rows[id].entry.Terminal()
        ensures id in Next(s, es[0]).rows && Next(s, es[0]).rows[id] == s.rows[id] { SettledStep(s, es[0], id); }
      LeaseIsExclusive(Next(s, es[0]), es[1..]);
    }
  }

  // ---------------------------------------------------------------- why batches finish in time

  /** No task in progress has run into its own limit. */
  ghost predicate Prompt(s: State) {
    forall w :: Working(s, w) ==> s.now < s.workers[w].beganAt + TASK_LIMIT
  }

  /** How long a worker's batch has taken so far. */
  predicate OnSchedule(me: Worker) {
    && |me.batch| <= BATCH
    && me.claimedAt <= me.beganAt <= me.claimedAt + (TASK_LIMIT - 1) * (BATCH - |me.batch|)
  }

  ghost predicate AllOnSchedule(s: State) {
    forall w :: w in s.workers ==> OnSchedule(s.workers[w])
  }

  ghost predicate PromptRun(s: State, es: seq<Event>)
    decreases |es|
  {
    Prompt(s) && (es == [] || (Enabled(s, es[0]) && PromptRun(Next(s, es[0]), es[1..])))
  }

  /** With at most ten tasks to a batch and each under its limit, every batch ends inside its lease: the
      hypothesis of LeaseIsExclusive follows from the client's timeout. */
  lemma {:induction false} PromptRunsAreTimely(s: State, es: seq<Event>)
    requires AllOnSchedule(s) && PromptRun(s, es)
    requires forall w :: w in s.workers ==> s.workers[w].beganAt <= s.now
    ensures ValidRun(s, es)
    decreases |es|
  {
    forall w | Working(s, w) ensures s.now < s.workers[w].claimedAt + LEASE { assert OnSchedule(s.workers[w]); }
    if es != [] {
      var s' := Next(s, es[0]);
      forall w | w in s'.workers ensures OnSchedule(s'.workers[w]) && s'.workers[w].beganAt <= s'.now {
        if w in s.workers { assert OnSchedule(s.workers[w]); }
        if es[0].Finish? && es[0].w == w { assert Working(s, w); }
      }
      PromptRunsAreTimely(s', es[1..]);
    }
  }

  const INIT := State(0, map[], map[])

  lemma InitLease()
    ensures LeaseInv(INIT)
  {}

  /** From an empty outbox, whatever the workers do: prompt runs never hold a row twice and never touch a
      settled one. */
  lemma PromptWorkersAreExclusive(es: seq<Event>, k: nat)
    requires PromptRun(INIT, es) && k <= |es|
    ensures ValidRun(INIT, es[..k]) && ValidRun(INIT, es)
    ensures var mid, end := Run(INIT, es[..k]), Run(INIT, es);
            && (forall v, i, w, j, id :: Holds(end, v, i, id) && Holds(end, w, j, id) ==> v == w && i == j)
            && (forall id :: id in mid.rows && mid.rows[id].entry.Terminal() ==>
                  id in end.rows
                  && end.rows[id] == mid.rows[id])
  {
    InitLease();
    PromptRunsAreTimely(INIT, es);
    RunSplits(INIT, es, k);
    LeaseIsExclusive(INIT, es[..k]);
    LeaseIsExclusive(Run(INIT, es[..k]), es[k..]);
  }

  lemma {:induction false} RunSplits(s: State, es: seq<Event>, k: nat)
    requires ValidRun(s, es) && k <= |es|
    ensures ValidRun(s, es[..k]) && ValidRun(Run(s, es[..k]), es[k..])
    ensures Run(s, es) == Run(Run(s, es[..k]), es[k..])
    decreases k
  {
    if k == 0 {
      assert es[..0] == [] && es[0..] == es;
    } else {
      RunSplits(Next(s, es[0]), es[1..], k - 1);
      assert es[..k][1..] == es[1..][..k - 1] && es[1..][k - 1..] == es[k..];
    }
  }

  /** The limit is needed: let a worker overrun its lease and two workers hold one row, and the late one
      reopens an entry the other has already sent. */
  lemma OverrunBreaksLease(key: O.Key)
    ensures var s1 := Next(Next(INIT, Insert(1, key)), Claim(0, [1]));
            var s2 := Next(s1, Wait(LEASE));
            && Enabled(s2, Claim(7, [1]))
            && (var s3 := Next(s2, Claim(7, [1]));
                && Holds(s3, 0, 0, 1) && Holds(s3, 7, 0, 1)
                && Enabled(s3, Finish(7, O.Posted(5.0), true))
                && (var s4 := Next(s3, Finish(7, O.Posted(5.0), true));
                    && s4.rows[1].entry.status.Sent?
                    && Enabled(s4, Finish(0, O.Retryable, true))
                    && Next(s4, Finish(0, O.Retryable, true)).rows[1].entry.status.Pending?))
  {
    var s0 := Next(INIT, Insert(1, key));
    assert Enabled(s0, Claim(0, [1]));
    var s1 := Next(s0, Claim(0, [1]));
    var s2 := Next(s1, Wait(LEASE));
    assert Enabled(s2, Claim(7, [1]));
    var s3 := Next(s2, Claim(7, [1]));
    assert Working(s3, 7) && Working(s3, 0);
    var s4 := Next(s3, Finish(7, O.Posted(5.0), true));
    assert Working(s4, 0) && s4.workers[0].batch[0].id == 1;
  }
}
