/** Runs in which registry and store do part company: one for each way a step can fail to behave. Every step
    but the last behaves. */
module Disagreement {
  import opened Wrappers
  import opened Rows
  import opened Agreement
  import R = Reconcile
  import S = Starts
  import StatusText

  const CP := "CP-1"

  function RowOf(rowID: int, id: int): Transaction {
    NewRow(rowID, "uuid", Request(CP, 1, 1000.0, "USER-1", false), id, 0)
  }

  function ListedBy(open: seq<Transaction>): S.Call { S.Call(1, "USER-1", 1000.0, open) }

  /** The three steps of a start that finds its connector free. */
  function StartOf(id: int): seq<Event>
    requires 1 <= id <= MAX_TRANSACTION_ID
  {
    [StartListed(CP, ListedBy([]))] + [StartDecided(CP, false, "uuid", Always(id))] + [TellStart(CP)]
  }

  function StoredStop(id: int, hookOK: bool): Event { StopStored(CP, id, 2000.0, hookOK) }

  /** The two steps of a stop whose callback is enqueued. */
  function StopOf(id: int): seq<Event> { [StoredStop(id, true)] + [TellStopped(CP)] }

  const SAYS_AVAILABLE := StatusNotification(CP, 1, "Available", "NoError")

  // ---------------------------------------------------------------- building runs

  lemma {:induction false} OneMoreStep(s: State, es: seq<Event>, e: Event)
    requires ValidRun(s, es)
    ensures AnyRun(s, es)
    ensures Enabled(Run(s, es), e) && WellBehaved(Run(s, es), e) ==>
              && ValidRun(s, es + [e]) && AnyRun(s, es + [e])
              && Run(s, es + [e]) == Next(Run(s, es), e)
    decreases |es|
  {
    ValidRunsAreRuns(s, es);
    if es == [] {
      assert ([] + [e])[1..] == [];
    } else {
      OneMoreStep(Next(s, es[0]), es[1..], e);
      assert (es + [e])[1..] == es[1..] + [e];
    }
  }

  /** A state some well-behaved run leads to. */
  ghost predicate ReachedBy(es: seq<Event>, s: State) {
    ValidRun(INIT, es) && AnyRun(INIT, es) && Run(INIT, es) == s
  }

  lemma Onwards(es: seq<Event>, s: State, e: Event) returns (s': State)
    requires ReachedBy(es, s) && Enabled(s, e) && WellBehaved(s, e)
    ensures s' == Next(s, e) && ReachedBy(es + [e], s')
  {
    OneMoreStep(INIT, es, e);
    s' := Next(s, e);
  }

  /** After this well-behaved run from the start, this step parts registry and store. */
  ghost predicate PartsCompany(es: seq<Event>, e: Event) {
    && ValidRun(INIT, es) && AnyRun(INIT, es)
    && Enabled(Run(INIT, es), e) && !WellBehaved(Run(INIT, es), e) && !Agrees(Next(Run(INIT, es), e))
  }

  lemma BadStep(es: seq<Event>, s: State, e: Event)
    requires ReachedBy(es, s) && Enabled(s, e) && !WellBehaved(s, e)
    ensures PartsCompany(es, e)
  {
    InitIsGood();
    RunKeepsAgreement(INIT, es);
    AgreementKeptIff(s, e);
  }

  /** What the connector shows, and what the charger and its recovery have in hand. */
  ghost predicate Scene(s: State, shown: Option<int>, calls: map<string, Call>, jobs: map<string, Job>) {
    s.Shown(CP, 1) == shown && s.calls == calls && s.jobs == jobs && s.starts == map[] && s.unseen == {} && s.now == 0
  }

  /** A closed one was stopped with a plausible reading. */
  predicate RowIs(rows: Rows, id: int, open: bool) {
    && id in rows && rows[id].On(CP, 1) && rows[id].Open() == open && rows[id].transactionID == id
    && rows[id].idTag == "USER-1" && rows[id].meterStart == 1000.0
    && (open ==> rows[id].meterStop == None) && (!open ==> R.CompletedOK(rows[id]))
  }

  ghost predicate NoneOpen(rows: Rows) { forall id :: id in rows ==> !rows[id].Open() }

  lemma NothingUnseen(s: State, e: Event)
    requires Enabled(s, e) && !e.Restart? && s.unseen == {}
    ensures Next(s, e).unseen == {}
  {}

  // ---------------------------------------------------------------- starts and stops

  lemma Lists(es: seq<Event>, s: State, open: seq<Transaction>, shown: Option<int>, jobs: map<string, Job>)
    returns (s': State)
    requires ReachedBy(es, s) && Scene(s, shown, map[], jobs) && S.Lists(open, s.table.rows, CP)
    ensures ReachedBy(es + [StartListed(CP, ListedBy(open))], s') && s'.table == s.table
    ensures s'.starts == map[CP := ListedBy(open)] && Scene(s'.(starts := map[]), shown, map[], jobs)
  {
    s' := Onwards(es, s, StartListed(CP, ListedBy(open)));
    NothingUnseen(s, StartListed(CP, ListedBy(open)));
    TouchMovesNothing(s.chargers, CP);
  }

  lemma Creates(es: seq<Event>, s: State, id: int, jobs: map<string, Job>) returns (s': State)
    requires 1 <= id <= MAX_TRANSACTION_ID && id !in s.table.rows && s.starts == map[CP := ListedBy([])]
    requires ReachedBy(es, s) && Scene(s.(starts := map[]), None, map[], jobs)
    ensures ReachedBy(es + [StartDecided(CP, false, "uuid", Always(id))], s')
    ensures Scene(s', None, map[CP := Starting(id, 1, 1000.0)], jobs)
    ensures s'.table.rows.Keys == s.table.rows.Keys + {id} && RowIs(s'.table.rows, id, true)
    ensures s'.table.rows[id] == RowOf(s.table.nextRowID, id)
    ensures forall x :: x in s.table.rows ==> s'.table.rows[x] == s.table.rows[x]
  {
    var e := StartDecided(CP, false, "uuid", Always(id));
    assert Always(id)[0] == id;
    assert FirstFree(s.table.rows, Always(id)) == Some(id);
    s' := Onwards(es, s, e);
    NothingUnseen(s, e);
    assert map[CP := ListedBy([])] - {CP} == map[];
  }

  lemma TellsStart(es: seq<Event>, s: State, id: int, shown: Option<int>, jobs: map<string, Job>) returns (s': State)
    requires ReachedBy(es, s) && Scene(s, shown, map[CP := Starting(id, 1, 1000.0)], jobs)
    requires RowIs(s.table.rows, id, true)
    ensures ReachedBy(es + [TellStart(CP)], s') && s'.table == s.table && Scene(s', Some(id), map[], jobs)
    ensures CP in s'.chargers && 1 in s'.chargers[CP].connectors && s'.chargers[CP].connectors[1].status == "Charging"
  {
    s' := Onwards(es, s, TellStart(CP));
    NothingUnseen(s, TellStart(CP));
    StartMoves(s.chargers, CP, 1, id, 1000.0);
    assert map[CP := Starting(id, 1, 1000.0)] - {CP} == map[];
  }

  lemma StartsNext(es: seq<Event>, s: State, id: int, jobs: map<string, Job>) returns (s': State)
    requires 1 <= id <= MAX_TRANSACTION_ID && id !in s.table.rows && NoneOpen(s.table.rows)
    requires ReachedBy(es, s) && Scene(s, None, map[], jobs)
    ensures ReachedBy(es + StartOf(id), s') && Scene(s', Some(id), map[], jobs)
    ensures CP in s'.chargers && 1 in s'.chargers[CP].connectors && s'.chargers[CP].connectors[1].status == "Charging"
    ensures s'.table.rows.Keys == s.table.rows.Keys + {id} && RowIs(s'.table.rows, id, true)
    ensures s'.table.rows[id] == RowOf(s.table.nextRowID, id)
    ensures forall x :: x in s.table.rows ==> s'.table.rows[x] == s.table.rows[x]
  {
    var e1, e2 := StartListed(CP, ListedBy([])), StartDecided(CP, false, "uuid", Always(id));
    var s1 := Lists(es, s, [], None, jobs);
    var s2 := Creates(es + [e1], s1, id, jobs);
    s' := TellsStart(es + [e1] + [e2], s2, id, None, jobs);
    assert es + [e1] + [e2] + [TellStart(CP)] == es + StartOf(id);
  }

  lemma Stores(es: seq<Event>, s: State, id: int, jobs: map<string, Job>) returns (s': State)
    requires ReachedBy(es, s) && Scene(s, Some(id), map[], jobs) && RowIs(s.table.rows, id, true)
    ensures ReachedBy(es + [StoredStop(id, true)], s')
    ensures Scene(s', Some(id), map[CP := Stopping(id, 1, 2000.0)], jobs)
    ensures s'.table.rows.Keys == s.table.rows.Keys && RowIs(s'.table.rows, id, false)
    ensures forall x :: x in s.table.rows && x != id ==> s'.table.rows[x] == s.table.rows[x]
  {
    assert CallbackGoesOut(s, id, 2000.0, true);
    s' := Onwards(es, s, StoredStop(id, true));
    NothingUnseen(s, StoredStop(id, true));
    TouchMovesNothing(s.chargers, CP);
  }

  lemma TellsStopped(es: seq<Event>, s: State, id: int, jobs: map<string, Job>) returns (s': State)
    requires ReachedBy(es, s) && Scene(s, Some(id), map[CP := Stopping(id, 1, 2000.0)], jobs)
    requires RowIs(s.table.rows, id, false)
    ensures ReachedBy(es + [TellStopped(CP)], s') && Scene(s', None, map[], jobs) && s'.table == s.table
  {
    s' := Onwards(es, s, TellStopped(CP));
    NothingUnseen(s, TellStopped(CP));
    StopMoves(s.chargers, CP, 1, 2000.0);
    assert map[CP := Stopping(id, 1, 2000.0)] - {CP} == map[];
  }

  lemma StopsIt(es: seq<Event>, s: State, id: int, jobs: map<string, Job>) returns (s': State)
    requires ReachedBy(es, s) && Scene(s, Some(id), map[], jobs) && RowIs(s.table.rows, id, true)
    ensures ReachedBy(es + StopOf(id), s') && Scene(s', None, map[], jobs)
    ensures s'.table.rows.Keys == s.table.rows.Keys && RowIs(s'.table.rows, id, false)
    ensures forall x :: x in s.table.rows && x != id ==> s'.table.rows[x] == s.table.rows[x]
  {
    var s1 := Stores(es, s, id, jobs);
    s' := TellsStopped(es + [StoredStop(id, true)], s1, id, jobs);
    assert es + [StoredStop(id, true)] + [TellStopped(CP)] == es + StopOf(id);
  }

  /** The first transaction of a fresh system. */
  lemma FirstStart() returns (s: State)
    ensures ReachedBy(StartOf(7), s) && Scene(s, Some(7), map[], map[])
    ensures CP in s.chargers && 1 in s.chargers[CP].connectors && s.chargers[CP].connectors[1].status == "Charging"
    ensures s.table.rows.Keys == {7} && RowIs(s.table.rows, 7, true) && s.table.rows[7] == RowOf(1, 7)
  {
    s := StartsNext([], INIT, 7, map[]);
    assert [] + StartOf(7) == StartOf(7);
  }

  /** The first is stopped and a second one started. */
  lemma NextStart(es: seq<Event>, s: State, jobs: map<string, Job>) returns (s': State)
    requires ReachedBy(es, s) && Scene(s, Some(7), map[], jobs)
    requires s.table.rows.Keys == {7} && RowIs(s.table.rows, 7, true)
    ensures ReachedBy(es + StopOf(7) + StartOf(8), s') && Scene(s', Some(8), map[], jobs)
    ensures RowIs(s'.table.rows, 7, false) && RowIs(s'.table.rows, 8, true)
  {
    var s1 := StopsIt(es, s, 7, jobs);
    s' := StartsNext(es + StopOf(7), s1, 8, jobs);
  }

  // ---------------------------------------------------------------- the three bad messages

  const NAMES_ANOTHER := MeterBegins(CP, 1, Some(99), Some(1500.0))

  /** A meter value that names another transaction. */
  lemma MeterNamesAnother()
    ensures PartsCompany(StartOf(7) + [NAMES_ANOTHER], TellMeter(CP))
  {
    var s := FirstStart();
    var s' := Onwards(StartOf(7), s, NAMES_ANOTHER);
    assert s'.calls[CP] == Metering(Some(99), 1, 1500.0);
    BadStep(StartOf(7) + [NAMES_ANOTHER], s', TellMeter(CP));
  }

  /** A stop whose callback is not enqueued. */
  lemma StopWithoutCallback()
    ensures PartsCompany(StartOf(7), StoredStop(7, false))
  {
    var s := FirstStart();
    BadStep(StartOf(7), s, StoredStop(7, false));
  }

  /** Stopping a closed row changes no row. */
  lemma StoresNothing(s: State, id: int)
    requires s.Idle(CP) && RowIs(s.table.rows, id, false)
    ensures var s' := Next(s, StoredStop(id, true));
            s'.table == s.table && s'.calls == s.calls[CP := Stopping(id, 1, 2000.0)] && s'.jobs == s.jobs
            && s'.Shown(CP, 1) == s.Shown(CP, 1)
  {
    var rows := s.table.rows;
    assert rows[id := rows[id]] == rows;
    TouchMovesNothing(s.chargers, CP);
  }

  /** A repeated stop that comes after the next start. */
  lemma StaleStop()
    ensures PartsCompany(StartOf(7) + StopOf(7) + StartOf(8) + [StoredStop(7, true)], TellStopped(CP))
  {
    var s := FirstStart();
    var s8 := NextStart(StartOf(7), s, map[]);
    var es := StartOf(7) + StopOf(7) + StartOf(8);
    var s' := Onwards(es, s8, StoredStop(7, true));
    StoresNothing(s8, 7);
    assert s'.Busy(CP, 1, 8);
    BadStep(es + [StoredStop(7, true)], s', TellStopped(CP));
  }

  // ---------------------------------------------------------------- the two delayed writes of recovery

  function JobOn(row: Transaction, phase: Phase): map<string, Job> { map[CP := Job(row, phase)] }

  /** Recovery reads the open transaction and judges it. */
  lemma Judges(es: seq<Event>, s: State, phase: Phase) returns (s': State)
    requires ReachedBy(es, s) && Scene(s, Some(7), map[], map[]) && RowIs(s.table.rows, 7, true)
    requires phase == if IsGhost(s.chargers, s.table.rows[7]) then Ghost else Alive
    ensures ReachedBy(es + [Refresh(CP, 7)] + [Judge(CP)], s')
    ensures Scene(s', Some(7), map[], JobOn(s.table.rows[7], phase)) && s'.table == s.table
  {
    var s1 := Onwards(es, s, Refresh(CP, 7));
    NothingUnseen(s, Refresh(CP, 7));
    assert s1.jobs == JobOn(s.table.rows[7], Refreshed);
    s' := Onwards(es + [Refresh(CP, 7)], s1, Judge(CP));
    NothingUnseen(s1, Judge(CP));
  }

  /** The charger is charging, so its transaction is alive. */
  function JudgedAlive(): seq<Event> { StartOf(7) + [Refresh(CP, 7)] + [Judge(CP)] }

  lemma ChargingIsNotAvailable()
    ensures !StatusText.IsAvailable("Charging")
  {
    assert StatusText.TrimmedLeft("Charging") == "Charging";
    assert StatusText.TrimmedRight("Charging") == "Charging";
  }

  lemma ReachJudgedAlive() returns (s: State)
    ensures ReachedBy(JudgedAlive(), s) && RowIs(s.table.rows, 7, true)
    ensures Scene(s, Some(7), map[], JobOn(s.table.rows[7], Alive))
  {
    var s1 := FirstStart();
    ChargingIsNotAvailable();
    s := Judges(StartOf(7), s1, Alive);
  }

  /** It stops before the replay, which makes the registry show a closed transaction. */
  lemma DelayedReplay()
    ensures PartsCompany(JudgedAlive() + StopOf(7), ReplayStart(CP))
    ensures Next(Run(INIT, JudgedAlive() + StopOf(7)), ReplayStart(CP)).Shown(CP, 1) == Some(7)
  {
    var s := ReachJudgedAlive();
    var row := s.table.rows[7];
    var s' := StopsIt(JudgedAlive(), s, 7, JobOn(row, Alive));
    BadStep(JudgedAlive() + StopOf(7), s', ReplayStart(CP));
    StartMoves(s'.chargers, CP, 1, 7, 1000.0);
  }

  /** The connector says it is available, so its transaction is a ghost. */
  function JudgedGhost(): seq<Event> { StartOf(7) + [SAYS_AVAILABLE] + [Refresh(CP, 7)] + [Judge(CP)] }

  lemma ReachJudgedGhost() returns (s: State)
    ensures ReachedBy(JudgedGhost(), s) && s.table.rows.Keys == {7} && RowIs(s.table.rows, 7, true)
    ensures s.table.rows[7] == RowOf(1, 7) && Scene(s, Some(7), map[], JobOn(s.table.rows[7], Ghost))
  {
    var s1 := FirstStart();
    var s2 := Onwards(StartOf(7), s1, SAYS_AVAILABLE);
    NothingUnseen(s1, SAYS_AVAILABLE);
    StatusMovesNothing(s1.chargers, CP, 1, "Available", "NoError");
    assert s2.chargers[CP].connectors[1].status == "Available";
    StatusText.AvailableIsAvailable();
    s := Judges(StartOf(7) + [SAYS_AVAILABLE], s2, Ghost);
  }

  /** Force-closing a closed row changes no row. */
  lemma ClosesNothing(t: Table, op: Op, now: int)
    requires op.ForceClose? && op.id in t.rows && !t.rows[op.id].Open()
    ensures Apply(t, op, now) == t
  {
    assert t.rows[op.id := t.rows[op.id]] == t.rows;
  }

  lemma ClosesTooLate(es: seq<Event>, s: State, row: Transaction) returns (s': State)
    requires ReachedBy(es, s) && Scene(s, Some(8), map[], JobOn(row, Ghost))
    requires row.transactionID == 7 && row.chargerID == CP && RowIs(s.table.rows, 7, false)
    ensures ReachedBy(es + [CloseGhost(CP, true)], s') && Scene(s', Some(8), map[], JobOn(row, Closed))
    ensures s'.table == s.table
  {
    assert s.jobs[CP] == Job(row, Ghost);
    s' := Onwards(es, s, CloseGhost(CP, true));
    NothingUnseen(s, CloseGhost(CP, true));
    ClosesNothing(s.table, ForceClose(CP, 7, LastKnownMeter(row)), s.now);
    assert s'.jobs == JobOn(row, Closed);
  }

  /** The charger stops its transaction and starts the next before recovery closes the ghost. */
  function ClosedTooLate(): seq<Event> { JudgedGhost() + StopOf(7) + StartOf(8) + [CloseGhost(CP, true)] }

  lemma ReachClosedTooLate() returns (s: State, row: Transaction)
    ensures ReachedBy(ClosedTooLate(), s) && Scene(s, Some(8), map[], JobOn(row, Closed))
    ensures RowIs(s.table.rows, 8, true) && row.connectorID == 1
  {
    var s1 := ReachJudgedGhost();
    row := s1.table.rows[7];
    var s8 := NextStart(JudgedGhost(), s1, JobOn(row, Ghost));
    s := ClosesTooLate(JudgedGhost() + StopOf(7) + StartOf(8), s8, row);
  }

  /** ... which makes the registry forget an open transaction. */
  lemma DelayedGhostClose()
    ensures var es := ClosedTooLate();
            && PartsCompany(es, TellClosed(CP))
            && (var s := Next(Run(INIT, es), TellClosed(CP));
                s.Shown(CP, 1) == None && s.Busy(CP, 1, 8) && 8 !in s.unseen)
  {
    var s, row := ReachClosedTooLate();
    assert s.Busy(CP, 1, 8);
    BadStep(ClosedTooLate(), s, TellClosed(CP));
    NothingUnseen(s, TellClosed(CP));
    StopMoves(s.chargers, CP, 1, LastKnownMeter(row));
  }

  // ---------------------------------------------------------------- the two delayed writes of a handler

  /** Recovery force-closes the ghost and tells the registry. */
  const CLOSES := [CloseGhost(CP, true)] + [TellClosed(CP)]

  /** ... whatever the charger's handler has in hand. */
  lemma Closes(es: seq<Event>, s: State, row: Transaction) returns (s': State)
    requires ReachedBy(es, s) && s.jobs == JobOn(row, Ghost) && s.Shown(CP, 1) == Some(7) && s.now == 0
    requires RowIs(s.table.rows, 7, true) && row == s.table.rows[7]
    ensures ReachedBy(es + CLOSES, s') && s'.Shown(CP, 1) == None && s'.starts == s.starts && s'.calls == s.calls
    ensures s'.jobs == map[] && 7 in s'.table.rows && !s'.table.rows[7].Open()
  {
    var s1 := Onwards(es, s, CloseGhost(CP, true));
    assert s1.jobs == JobOn(row, Closed);
    s' := Onwards(es + [CloseGhost(CP, true)], s1, TellClosed(CP));
    StopMoves(s1.chargers, CP, 1, LastKnownMeter(row));
    assert es + [CloseGhost(CP, true)] + [TellClosed(CP)] == es + CLOSES;
  }

  const RETRY := StartListed(CP, ListedBy([RowOf(1, 7)]))

  /** Every step of a repeated start but its registry write, with recovery's close in between. */
  function RetriedStart(): seq<Event> {
    JudgedGhost() + [RETRY] + CLOSES + [StartDecided(CP, false, "uuid", Always(7))]
  }

  lemma RowIsListed(rows: Rows)
    requires rows.Keys == {7} && rows[7] == RowOf(1, 7)
    ensures S.Lists([RowOf(1, 7)], rows, CP)
  {
    assert [rows[7]][0].transactionID == 7;
    assert OpenOf(rows, CP).Keys == {7};
    assert S.InList([rows[7]], 7);
  }

  /** A repeated start lists the open transaction, recovery closes it and says so, and then the start makes the
      registry show it. */
  lemma DelayedStart()
    ensures PartsCompany(RetriedStart(), TellStart(CP))
  {
    var s := ReachJudgedGhost();
    var row := RowOf(1, 7);
    RowIsListed(s.table.rows);
    var s1 := Lists(JudgedGhost(), s, [row], Some(7), JobOn(row, Ghost));
    var s2 := Closes(JudgedGhost() + [RETRY], s1, row);
    assert S.DecisionOf(s2.starts[CP]) == S.Retry(row);
    var s3 := Onwards(JudgedGhost() + [RETRY] + CLOSES, s2, StartDecided(CP, false, "uuid", Always(7)));
    assert s3.calls[CP] == Starting(7, 1, 1000.0);
    BadStep(RetriedStart(), s3, TellStart(CP));
  }

  const UNNAMED := MeterBegins(CP, 1, None, Some(1500.0))

  /** A meter value without an ID reads the open one from the registry, recovery closes it and says so, and then
      the meter value makes the registry show it again. */
  lemma DelayedMeter()
    ensures PartsCompany(JudgedGhost() + [UNNAMED] + CLOSES, TellMeter(CP))
  {
    var s := ReachJudgedGhost();
    var s1 := Onwards(JudgedGhost(), s, UNNAMED);
    TouchMovesNothing(s.chargers, CP);
    assert s1.calls[CP] == Metering(Some(7), 1, 1500.0);
    var s2 := Closes(JudgedGhost() + [UNNAMED], s1, s.table.rows[7]);
    BadStep(JudgedGhost() + [UNNAMED] + CLOSES, s2, TellMeter(CP));
  }
}
