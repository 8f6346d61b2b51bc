/** The transaction table: the row effect of every store operation (internal/store/memory.go,
    limit_stop_memory.go and outbox_memory.go), on values. MemoryStore is proved against these
    functions, and the run theorems are about them. */
module Rows {
  import opened Wrappers
  import opened Meter

  const MAX_TRANSACTION_ID := 2147483647
  const MAX_DRAWS := 100

  datatype Transaction = Transaction(
    rowID: int, uuid: string, chargerID: string, connectorID: int, meterStart: real,
    meterStop: Option<real>, totalConsumption: Option<real>,
    startTime: int, stopTime: Option<int>, idTag: string, transactionID: int,
    isSingleSession: bool, maxKWh: Option<real>, limitStopRequested: bool)
  {
    predicate Open() { stopTime.None? }

    /** The consumption has reached the limit. */
    predicate OverLimit() {
      maxKWh.Some? && totalConsumption.Some? && totalConsumption.value >= maxKWh.value
    }

    predicate On(charger: string, connector: int) { chargerID == charger && connectorID == connector }
  }

  type Rows = map<int, Transaction>

  datatype Table = Table(nextRowID: int, rows: Rows)

  datatype Request = Request(
    chargerID: string, connectorID: int, meterStart: real, idTag: string, isSingleSession: bool)

  /** What the generator hands out to one CreateTransaction call: one candidate ID per attempt. */
  type Draws = d: seq<int> | |d| == MAX_DRAWS && (forall k :: 0 <= k < |d| ==> 1 <= d[k] <= MAX_TRANSACTION_ID)
    witness seq(MAX_DRAWS, _ => 1)

  // ---------------------------------------------------------------- row effects

  predicate Known(rows: Rows, charger: string, id: int) {
    id in rows && rows[id].chargerID == charger
  }

  function Consumption(tx: Transaction, meterWh: real): real {
    DeltaWh(tx.meterStart, meterWh) / 1000.0
  }

  function Metered(tx: Transaction, meterWh: real): Transaction {
    tx.(meterStop := Some(meterWh), totalConsumption := Some(Consumption(tx, meterWh)))
  }

  function Stopped(tx: Transaction, meterWh: real, now: int): Transaction {
    if tx.Open() then Metered(tx, meterWh).(stopTime := Some(now)) else tx
  }

  predicate Claimable(tx: Transaction) {
    tx.Open() && !tx.limitStopRequested && tx.OverLimit()
  }

  function FirstFree(rows: Rows, draws: seq<int>): Option<int> {
    if draws == [] then None
    else if draws[0] in rows then FirstFree(rows, draws[1..])
    else Some(draws[0])
  }

  function NewRow(rowID: int, uuid: string, r: Request, id: int, now: int): Transaction {
    Transaction(rowID, uuid, r.chargerID, r.connectorID, r.meterStart, None, None, now, None, r.idTag, id,
                r.isSingleSession, None, false)
  }

  datatype Op =
    | Create(request: Request, uuid: string, draws: Draws)
    | LiveMeter(chargerID: string, id: int, meterWh: real)
    | Stop(chargerID: string, id: int, meterWh: real)
    | ForceClose(chargerID: string, id: int, meterWh: real)
    | SetMaxKWh(id: int, maxKWh: real)
    | CheckLimit(chargerID: string, id: int)
    | Release(chargerID: string, id: int)
  {
    /** The row an operation changes when it succeeds, if it names one. */
    predicate Names(rows: Rows, target: int) {
      match this
      case Create(_, _, draws) => FirstFree(rows, draws) == Some(target)
      case SetMaxKWh(id, _) => id == target
      case _ => id == target && Known(rows, chargerID, id)
    }
  }

  /** What an operation makes of the row it names; a foreign charger's call leaves it alone. */
  function Effect(tx: Transaction, op: Op, now: int): Transaction {
    match op
    case Create(_, _, _) => tx
    case LiveMeter(charger, _, m) => if tx.chargerID == charger then Metered(tx, m) else tx
    case Stop(charger, _, m) => if tx.chargerID == charger then Stopped(tx, m, now) else tx
    case ForceClose(charger, _, m) => if tx.chargerID == charger then Stopped(tx, m, now) else tx
    case SetMaxKWh(_, k) => tx.(maxKWh := Some(k))
    case CheckLimit(charger, _) =>
      if tx.chargerID == charger && Claimable(tx) then tx.(limitStopRequested := true) else tx
    case Release(charger, _) =>
      if tx.chargerID == charger && tx.Open() then tx.(limitStopRequested := false) else tx
  }

  /** The table after an operation; on an error the table is unchanged. */
  function Apply(t: Table, op: Op, now: int): Table {
    if op.Create? then
      match FirstFree(t.rows, op.draws)
      case None => t
      case Some(id) =>
        Table(t.nextRowID + 1, t.rows[id := NewRow(t.nextRowID, op.uuid, op.request, id, now)])
    else if op.id in t.rows then t.(rows := t.rows[op.id := Effect(t.rows[op.id], op, now)])
    else t
  }

  function OpenOf(rows: Rows, charger: string): Rows {
    map id | id in rows && rows[id].chargerID == charger && rows[id].Open() :: rows[id]
  }

  /** A call that names an unknown transaction, or another charger's, leaves the table alone. */
  lemma ForeignCallChangesNothing(t: Table, op: Op, now: int)
    requires !op.Create? && !op.SetMaxKWh? && !Known(t.rows, op.chargerID, op.id)
    ensures Apply(t, op, now) == t
  {
    if op.id in t.rows { assert t.rows[op.id := t.rows[op.id]] == t.rows; }
  }

  // ---------------------------------------------------------------- invariants

  predicate RowOK(id: int, tx: Transaction, nextRowID: int, now: int) {
    && tx.transactionID == id && 1 <= id <= MAX_TRANSACTION_ID
    && 1 <= tx.rowID < nextRowID
    && (tx.meterStop.Some? <==> tx.totalConsumption.Some?)
    && (tx.meterStop.Some? ==> tx.totalConsumption == Some(Consumption(tx, tx.meterStop.value)))
    && (tx.stopTime.Some? ==> tx.meterStop.Some? && tx.startTime <= tx.stopTime.value)
    && tx.startTime <= now
  }

  /** Transaction IDs are the keys and in range, row IDs are unique and already handed out, meter and
      total are set together and agree, and a closed row has both. */
  ghost predicate TableInv(t: Table, now: int) {
    && 1 <= t.nextRowID
    && (forall id :: id in t.rows ==> RowOK(id, t.rows[id], t.nextRowID, now))
    && (forall i, j :: i in t.rows && j in t.rows && t.rows[i].rowID == t.rows[j].rowID ==> i == j)
  }

  predicate SameIdentity(a: Transaction, b: Transaction) {
    a.rowID == b.rowID && a.uuid == b.uuid && a.chargerID == b.chargerID && a.connectorID == b.connectorID
    && a.meterStart == b.meterStart && a.startTime == b.startTime && a.idTag == b.idTag
    && a.transactionID == b.transactionID && a.isSingleSession == b.isSingleSession
  }

  /** A later version of the same row: identity kept, stop time write-once. */
  predicate Evolves(a: Transaction, b: Transaction) {
    SameIdentity(a, b) && (a.stopTime.Some? ==> b.stopTime == a.stopTime)
  }

  ghost predicate Extends(before: Rows, after: Rows) {
    forall id :: id in before ==> id in after && Evolves(before[id], after[id])
  }

  lemma {:induction false} FirstFreeIsFree(rows: Rows, draws: seq<int>)
    requires forall k :: 0 <= k < |draws| ==> 1 <= draws[k] <= MAX_TRANSACTION_ID
    ensures match FirstFree(rows, draws)
            case Some(id) => id !in rows && 1 <= id <= MAX_TRANSACTION_ID && id in draws
            case None => forall k :: 0 <= k < |draws| ==> draws[k] in rows
  {
    if draws != [] { FirstFreeIsFree(rows, draws[1..]); }
  }

  /** Every store operation keeps the table invariant and only ever extends the table. */
  lemma ApplyKeepsInv(t: Table, op: Op, before: int, now: int)
    requires TableInv(t, before) && before <= now
    ensures TableInv(Apply(t, op, now), now)
    ensures Extends(t.rows, Apply(t, op, now).rows)
  {
    if op.Create? {
      FirstFreeIsFree(t.rows, op.draws);
    } else if op.id in t.rows {
      var row := t.rows[op.id];
      assert RowOK(op.id, row, t.nextRowID, before);
      EffectKeepsRow(op.id, row, op, t.nextRowID, before, now);
    }
  }

  lemma EffectKeepsRow(id: int, row: Transaction, op: Op, nextRowID: int, before: int, now: int)
    requires RowOK(id, row, nextRowID, before) && before <= now
    ensures RowOK(id, Effect(row, op, now), nextRowID, now) && Evolves(row, Effect(row, op, now))
  {}

  /** A timed operation: the clock at which the store runs it. */
  datatype Timed = Timed(op: Op, now: int)

  function RunOps(t: Table, ops: seq<Timed>): Table {
    if ops == [] then t else Apply(RunOps(t, ops[..|ops| - 1]), ops[|ops| - 1].op, ops[|ops| - 1].now)
  }

  function LastTime(start: int, ops: seq<Timed>): int {
    if ops == [] then start else ops[|ops| - 1].now
  }

  /** The clock never runs backwards. */
  predicate ClockRuns(start: int, ops: seq<Timed>) {
    forall i :: 0 <= i < |ops| ==> LastTime(start, ops[..i]) <= ops[i].now
  }

  /** Over every run of store operations: unique and bounded IDs, consistent meters, nothing lost,
      identity and stop time never rewritten. */
  lemma {:induction false} OpsKeepInv(t: Table, start: int, ops: seq<Timed>)
    requires TableInv(t, start) && ClockRuns(start, ops)
    ensures TableInv(RunOps(t, ops), LastTime(start, ops))
    ensures Extends(t.rows, RunOps(t, ops).rows)
  {
    if ops != [] {
      var init := ops[..|ops| - 1];
      assert forall i :: 0 <= i < |init| ==> init[..i] == ops[..i];
      OpsKeepInv(t, start, init);
      ApplyKeepsInv(RunOps(t, init), ops[|ops| - 1].op, LastTime(start, init), ops[|ops| - 1].now);
    }
  }

  // ---------------------------------------------------------------- closed rows

  /** Exactly which operations still change a closed row: a meter value for its charger that differs
      from what is stored, and a new limit. */
  lemma ClosedRowChangesIff(t: Table, op: Op, now: int, id: int)
    requires id in t.rows && !t.rows[id].Open()
    ensures Apply(t, op, now).rows[id] != t.rows[id]
       <==> || (op.LiveMeter? && op.Names(t.rows, id) && Metered(t.rows[id], op.meterWh) != t.rows[id])
            || (op.SetMaxKWh? && op.id == id && t.rows[id].maxKWh != Some(op.maxKWh))
  {
    if op.Create? { FirstFreeIsFree(t.rows, op.draws); }
  }

  /** Once closed, a row that no later meter value names keeps everything but its limit. */
  lemma {:induction false} ClosedRowFrozen(t: Table, ops: seq<Timed>, id: int)
    requires id in t.rows && !t.rows[id].Open()
    requires forall i :: 0 <= i < |ops| && ops[i].op.LiveMeter? ==> ops[i].op.id != id
    ensures id in RunOps(t, ops).rows
    ensures t.rows[id] == RunOps(t, ops).rows[id].(maxKWh := t.rows[id].maxKWh)
  {
    if ops != [] {
      var init := ops[..|ops| - 1];
      ClosedRowFrozen(t, init, id);
      var mid := RunOps(t, init);
      var last := ops[|ops| - 1];
      assert !mid.rows[id].Open();
      ClosedRowChangesIff(mid, last.op, last.now, id);
    }
  }

  /** A late meter value does rewrite a closed row: the hypothesis above is needed. */
  lemma LateMeterRewritesClosedRow()
    ensures var r := Request("CP-1", 1, 1000.0, "USER-1", false);
            var row := NewRow(1, "u", r, 7, 0);
            var closed := Apply(Table(2, map[7 := row]), Stop("CP-1", 7, 2500.0), 5);
            var late := Apply(closed, LiveMeter("CP-1", 7, 9000.0), 6);
            && late.rows[7].stopTime == closed.rows[7].stopTime == Some(5)
            && closed.rows[7].totalConsumption == Some(1.5)
            && late.rows[7].totalConsumption == Some(8.0)
  {
    var row := NewRow(1, "u", Request("CP-1", 1, 1000.0, "USER-1", false), 7, 0);
    assert Known(map[7 := row], "CP-1", 7);
    assert Known(map[7 := Stopped(row, 2500.0, 5)], "CP-1", 7);
  }

  /** Stopping is idempotent: whatever happens between two stops of a row, the second call changes
      nothing and answers with the first stop time. */
  lemma SecondStopChangesNothing(t: Table, ops: seq<Timed>, charger: string, id: int, m1: real, m2: real, t1: int,
                                 t2: int)
    requires Known(t.rows, charger, id)
    requires TableInv(t, t1) && ClockRuns(t1, ops)
    ensures var stopped := Apply(t, Stop(charger, id, m1), t1);
            var later := RunOps(stopped, ops);
            && Apply(later, Stop(charger, id, m2), t2) == later
            && id in later.rows && later.rows[id].stopTime == stopped.rows[id].stopTime
            && stopped.rows[id].stopTime.Some?
  {
    var stopped := Apply(t, Stop(charger, id, m1), t1);
    ApplyKeepsInv(t, Stop(charger, id, m1), t1, t1);
    OpsKeepInv(stopped, t1, ops);
    var later := RunOps(stopped, ops);
    assert later.rows[id := later.rows[id]] == later.rows;
  }

  // ---------------------------------------------------------------- ghost close

  /** Closing with the last known meter value (boot recovery) keeps the stored consumption, and books 0
      when no meter value ever arrived. */
  function LastKnownMeter(tx: Transaction): real {
    if tx.meterStop.Some? then tx.meterStop.value else tx.meterStart
  }

  /** `seen` is the version of the row recovery read before it closed it. */
  lemma GhostCloseKeepsConsumptionIff(seen: Transaction, row: Transaction, nextRowID: int, now: int)
    requires RowOK(seen.transactionID, seen, nextRowID, now) && RowOK(row.transactionID, row, nextRowID, now)
    requires SameIdentity(seen, row) && row.Open()
    ensures var closed := Stopped(row, LastKnownMeter(seen), now);
            && closed.totalConsumption == Some(if seen.totalConsumption.Some? then seen.totalConsumption.value else 0.0)
            && (closed.totalConsumption == Some(if row.totalConsumption.Some? then row.totalConsumption.value else 0.0)
                <==> DeltaWh(row.meterStart, LastKnownMeter(seen)) == DeltaWh(row.meterStart, LastKnownMeter(row)))
  {}

  /** A meter value that arrives between recovery's read and its close is lost: the row showed 2 kWh and is
      closed with 1. */
  lemma GhostCloseLosesAReading()
    ensures var t := Apply(Table(1, map[]), Create(Request("CP-1", 1, 1000.0, "USER-1", false), "uuid", Always(7)), 0);
            var read := Apply(t, LiveMeter("CP-1", 7, 2000.0), 1);
            var overtaken := Apply(read, LiveMeter("CP-1", 7, 3000.0), 2);
            && 7 in read.rows && 7 in overtaken.rows && overtaken.rows[7].totalConsumption == Some(2.0)
            && (var closed := Apply(overtaken, ForceClose("CP-1", 7, LastKnownMeter(read.rows[7])), 3);
                && 7 in closed.rows && closed.rows[7].stopTime == Some(3)
                     && closed.rows[7].totalConsumption == Some(1.0))
  {
    assert Always(7)[0] == 7;
  }

  /** A generator that always offers the same ID. */
  function Always(id: int): Draws
    requires 1 <= id <= MAX_TRANSACTION_ID
  {
    seq(MAX_DRAWS, _ => id)
  }
}
