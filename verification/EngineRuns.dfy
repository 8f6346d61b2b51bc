/** Concrete runs of the engine that show what it does not promise. */
module EngineRuns {
  import opened Wrappers
  import opened Rows
  import opened Engine
  import opened EngineTheorems
  import O = Outbox
  import S = Starts
  import B = Recovery
  import L = LimitStop

  const CP := "CP-1"
  const ROW := NewRow(1, "uuid", Request(CP, 1, 1000.0, "USER-1", false), 7, 0)

  function CallOf(open: seq<Transaction>): S.Call { S.Call(1, "USER-1", 1000.0, open) }

  function Decides(): Event { StartDecided(CP, false, "uuid", Always(7)) }

  lemma Then(es: seq<Event>, e: Event)
    ensures At(es + [e]) == Step(At(es), e)
  {
    assert (es + [e])[..|es|] == es;
  }

  /** The charger starts transaction 7. */
  function StartsSeven(): seq<Event> { [StartListed(CP, CallOf([])), Decides(), Enqueue(Handler(CP), true)] }

  /** A start before its decision, after it, and done. */
  const LISTED := INIT.(calls := map[CP := CallOf([])])
  const DECIDED := INIT.(table := Table(2, map[7 := ROW]), owed := map[Handler(CP) := Owed(O.StartKind, ROW)],
                            hub := INIT.hub.(unpublished := multiset{7}))
  const STARTED := DECIDED.(owed := map[], outbox := O.Outbox(1, map[1 := O.Fresh(O.Key(O.StartKind, 7), 0)]))

  lemma Decides7()
    ensures Enabled(LISTED, Decides()) && Step(LISTED, Decides()) == DECIDED
  {
    assert S.DecisionOf(CallOf([])) == S.Fresh;
    assert Always(7)[0] == 7;
    assert FirstFree(map[], Always(7)) == Some(7);
    assert LISTED.calls - {CP} == map[];
  }

  lemma Enqueues7()
    ensures Step(DECIDED, Enqueue(Handler(CP), true)) == STARTED
  {
    assert DECIDED.owed - {Handler(CP)} == map[];
  }

  lemma Started()
    ensures At(StartsSeven()) == STARTED
  {
    var e1, e2, e3 := StartListed(CP, CallOf([])), Decides(), Enqueue(Handler(CP), true);
    Then([], e1);
    Then([] + [e1], e2);
    Then([] + [e1] + [e2], e3);
    Decides7();
    Enqueues7();
    assert [] + [e1] + [e2] + [e3] == StartsSeven();
  }

  lemma ListsRow()
    ensures S.Lists([ROW], map[7 := ROW], CP)
  {
    assert [ROW][0].transactionID == 7;
    assert OpenOf(map[7 := ROW], CP).Keys == {7};
    assert S.InList([ROW], 7);
  }

  lemma RunOne(s: Engine, e: Event)
    ensures Run(s, [e]) == Step(s, e)
  {
    assert [e][..0] == [];
    assert Run(s, []) == s;
  }

  /** ... reboots, and recovery judges the transaction a ghost. */
  const JUDGED := [
    Boot(B.Schedule(CP)), Boot(B.Snapshot(CP, [ROW], true)), Tick(10), Boot(B.Wake(0)), Boot(B.Refresh(0, true, true))]

  lemma Snapshotted(es: seq<Event>)
    requires es == StartsSeven() + [Boot(B.Schedule(CP))] + [Boot(B.Snapshot(CP, [ROW], true))]
    ensures var s := At(es);
            && s.table.rows == map[7 := ROW] && s.now == 0 && s.calls == map[] && s.owed == map[]
            && 0 in s.recoveries.tasks && s.recoveries.tasks[0] == B.Task(CP, [ROW], 0, B.Asleep(10), 0, map[7 := ROW])
  {
    Started();
    Then(StartsSeven(), Boot(B.Schedule(CP)));
    Then(StartsSeven() + [Boot(B.Schedule(CP))], Boot(B.Snapshot(CP, [ROW], true)));
    ListsRow();
  }

  lemma Woken(es: seq<Event>)
    requires es == StartsSeven() + [Boot(B.Schedule(CP))] + [Boot(B.Snapshot(CP, [ROW], true))] + [Tick(10)]
               + [Boot(B.Wake(0))]
    ensures var s := At(es);
            && s.table.rows == map[7 := ROW] && s.now == 10 && s.calls == map[] && s.owed == map[]
            && 0 in s.recoveries.tasks && s.recoveries.tasks[0].phase.Next? && s.recoveries.tasks[0].chargerID == CP
            && s.recoveries.tasks[0].boot == [ROW] && s.recoveries.tasks[0].done == 0
  {
    var e2 := StartsSeven() + [Boot(B.Schedule(CP))] + [Boot(B.Snapshot(CP, [ROW], true))];
    Snapshotted(e2);
    Then(e2, Tick(10));
    Then(e2 + [Tick(10)], Boot(B.Wake(0)));
  }

  lemma Judged()
    ensures var s := At(StartsSeven() + JUDGED);
            && s.table.rows == map[7 := ROW] && s.now == 10 && s.calls == map[] && s.owed == map[]
            && 0 in s.recoveries.tasks && s.recoveries.tasks[0].phase == B.Closing(ROW)
            && s.recoveries.tasks[0].chargerID == CP
  {
    var e4 := StartsSeven() + [Boot(B.Schedule(CP))] + [Boot(B.Snapshot(CP, [ROW], true))] + [Tick(10)]
        + [Boot(B.Wake(0))];
    Woken(e4);
    Then(e4, Boot(B.Refresh(0, true, true)));
    assert e4 + [Boot(B.Refresh(0, true, true))] == StartsSeven() + JUDGED;
  }

  const RETRY := CallOf([ROW])

  const CLOSES := Boot(B.Close(0, true))

  /** A repeated start answered with a closed transaction: recovery closes it between the listing of the retry
      and its decision. */
  lemma RetriedStartOfClosed()
    ensures var es, mid := StartsSeven() + JUDGED, [CLOSES];
            && Listed(es, CP, RETRY, mid) && S.Busy(At(es).table.rows, CP, 1, 7)
            && (var late := Late(es, CP, RETRY, mid);
                && CP in late.calls && StartedID(late, CP, Always(7)) == Some(7)
                && 7 in late.table.rows && !late.table.rows[7].Open())
  {
    Judged();
    var es := StartsSeven() + JUDGED;
    var s := At(es);
    ListsRow();
    var listed := Step(s, StartListed(CP, RETRY));
    RunOne(listed, CLOSES);
  }

  // ---------------------------------------------------------------- a claim without a loop

  const CLAIMED := ROW.(maxKWh := Some(1.0), meterStop := Some(3000.0), totalConsumption := Some(2.0),
                        limitStopRequested := true)

  /** The start's callback is answered with a limit of 1 kWh ... */
  function LimitSet(): seq<Event> { StartsSeven() + [ClaimTasks([1])] + [Post] + [SetLimit(1.0)] }

  /** ... a meter value exceeds it, and the check it owes claims the transaction. */
  function LimitReached(): seq<Event> {
    LimitSet() + [MeterValue(CP, Some(7), 3000.0)] + [PayCheck(CP, 7, true)]
  }

  const HELD := STARTED.(held := [O.Task(1, O.Key(O.StartKind, 7), 0, 6)],
                         outbox := O.Outbox(1, map[1 := O.Fresh(O.Key(O.StartKind, 7), 0).(status := O.Processing)]))

  lemma Claims1()
    ensures Step(STARTED, ClaimTasks([1])) == HELD
  {
    assert O.SetOf([1]) == {1} by { assert [1][0] in O.SetOf([1]); }
    assert O.Claim(STARTED.outbox.entries, {1}) == HELD.outbox.entries;
    assert O.TasksOf(STARTED.outbox.entries, [1]) == HELD.held;
  }

  /** The limit is stored, and a check owed. */
  ghost predicate LimitOwed(s: Engine) {
    && s.table.rows == map[7 := ROW.(maxKWh := Some(1.0))] && s.now == 0 && Idle(s, CP)
    && s.limits == INIT.limits.(checks := multiset{L.Check(CP, 7)})
  }

  lemma AnswerSetsLimit()
    ensures LimitOwed(Step(Step(HELD, Post), SetLimit(1.0)))
  {
    assert Step(HELD, Post) == HELD.(posted := true);
  }

  lemma LimitIsSet()
    ensures LimitOwed(At(LimitSet()))
  {
    var es := StartsSeven();
    Started();
    Then(es, ClaimTasks([1]));
    Claims1();
    Then(es + [ClaimTasks([1])], Post);
    Then(es + [ClaimTasks([1])] + [Post], SetLimit(1.0));
    AnswerSetsLimit();
  }

  lemma MeterExceedsIt(s: Engine)
    requires LimitOwed(s)
    ensures var s' := Step(s, MeterValue(CP, Some(7), 3000.0));
            && s'.table.rows == map[7 := CLAIMED.(limitStopRequested := false)] && s'.now == 0
            && s'.limits == INIT.limits.(checks := multiset{L.Check(CP, 7), L.Check(CP, 7)})
  {}

  lemma CheckClaimsIt(s: Engine)
    requires s.table.rows == map[7 := CLAIMED.(limitStopRequested := false)]
    requires s.limits == INIT.limits.(checks := multiset{L.Check(CP, 7), L.Check(CP, 7)})
    ensures var s' := Step(s, PayCheck(CP, 7, true));
            s'.table.rows == map[7 := CLAIMED] && s'.limits.workers == map[0 := L.StartWorker(CP, 7)]
  {}

  lemma LimitIsReached()
    ensures var s := At(LimitReached());
            && s.table.rows == map[7 := CLAIMED] && s.limits.workers == map[0 := L.StartWorker(CP, 7)]
  {
    LimitIsSet();
    Then(LimitSet(), MeterValue(CP, Some(7), 3000.0));
    MeterExceedsIt(At(LimitSet()));
    Then(LimitSet() + [MeterValue(CP, Some(7), 3000.0)], PayCheck(CP, 7, true));
    CheckClaimsIt(At(LimitSet() + [MeterValue(CP, Some(7), 3000.0)]));
  }

  lemma LoopIsLost(s: Engine)
    requires s.limits.workers == map[0 := L.StartWorker(CP, 7)]
    ensures LosesLoop(s, Restart, 7)
    ensures var s' := Step(s, Restart);
            s'.table == s.table && !L.HasWorker(s'.limits, 7) && s'.limits.checks == multiset{}
  {
    assert s.limits.workers[0].id == 7;
  }

  /** A restart while the loop runs: the transaction is open, over its limit and claimed, and its claim
      is served by nobody, now or in any continuation. */
  lemma RestartLosesTheLoop(more: seq<Event>)
    ensures var es := LimitReached();
            && LostAt(es + [Restart], |es|, 7)
            && (var s := At(es + [Restart]);
                && s.table.rows == map[7 := CLAIMED] && CLAIMED.Open() && CLAIMED.OverLimit()
                && !L.HasWorker(s.limits, 7) && s.limits.checks == multiset{})
            && Orphaned(At(es + [Restart] + more), 7)
  {
    var es := LimitReached();
    LimitIsReached();
    Then(es, Restart);
    assert (es + [Restart])[..|es|] == es;
    LoopIsLost(At(es));
    var all := es + [Restart] + more;
    assert all[..|es|] == es && all[|es|] == Restart;
    LostStaysOrphaned(all, |es|, 7);
  }
}
