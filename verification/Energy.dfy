/** The software charger drives the central system: what its sessions add up to. All calls are answered,
    callbacks go out, and nobody force-closes. */
module Energy {
  import opened Wrappers
  import opened Meter
  import opened Rows
  import opened Handlers
  import opened Simulator
  import R = Reconcile
  import S = Starts
  import O = Outbox
  import G = Registry

  /** A completed session: its transaction, the register at start and stop. */
  datatype Session = Session(id: int, startWh: real, stopWh: real)

  /** `startWh` is ghost: the register when the current session started. */
  datatype World = World(charger: Charger, sys: System, startWh: real, sessions: seq<Session>, now: int)

  /** A start by the driver or by a pending remote start, with the answers to Authorize and to the status
      notifications; StartTransaction itself the central system answers. */
  datatype Event =
    | Start(idTag: string, remote: bool, authorized: bool, preparingOK: bool, chargingOK: bool,
            single: bool, open: seq<Transaction>, uuid: string, draws: Draws)
    | Tick(hours: real, powerKW: real)
    | EndSession(statusOK: bool)
    | Wait(seconds: nat)

  const ID := "CP-SIM-001"
  const CONNECTOR := 1

  ghost predicate Enabled(w: World, e: Event) {
    e.Start? ==> S.Lists(e.open, w.sys.table.rows, ID)
  }

  function StartRequestOf(w: World, idTag: string): StartRequest {
    StartRequest(CONNECTOR, idTag, Truncated(w.charger.meterWh))
  }

  function NetOf(e: Event, started: Option<int>): StartNet
    requires e.Start?
  {
    StartNet(e.authorized, e.preparingOK, started, e.chargingOK)
  }

  /** Does this attempt get as far as the StartTransaction call? */
  predicate Asks(w: World, e: Event)
    requires e.Start?
  {
    AsksStart(w.charger, e.idTag, e.remote, NetOf(e, None))
  }

  function AnswerToStart(w: World, e: Event): (System, Reply)
    requires e.Start?
  {
    HandleStart(w.sys, ID, StartRequestOf(w, e.idTag), e.open, e.single, e.uuid, e.draws, true, w.now)
  }

  function Next(w: World, e: Event): World {
    match e
    case Start(idTag, remote, _, _, _, _, _, _, _) =>
      if !Asks(w, e) then w.(charger := AfterStartAttempt(w.charger, idTag, remote, NetOf(e, None)))
      else
        var (sys', reply) := AnswerToStart(w, e);
        var started := if reply.Accepted? then Some(reply.id) else None;
        w.(charger := AfterStartAttempt(w.charger, idTag, remote, NetOf(e, started)), sys := sys',
            startWh := w.charger.meterWh)
    case Tick(hours, power) =>
      if w.charger.transaction == 0 || hours < 0.0 || power < 0.0 then w
      else
        var c' := AfterTick(w.charger, hours, power);
        w.(charger := c', sys := HandleMeter(w.sys, ID, CONNECTOR, Some(c'.transaction), Some(Rounded(c'.meterWh)),
            w.now))
    case EndSession(statusOK) =>
      if w.charger.transaction == 0 then w
      else
        var (sys', reply) := HandleStop(w.sys, ID, w.charger.transaction, Truncated(w.charger.meterWh), true, w.now);
        w.(charger := AfterStopAttempt(w.charger, reply.Confirmed?, statusOK), sys := sys',
           sessions := if reply.Confirmed? then w.sessions
               + [Session(w.charger.transaction, w.startWh, w.charger.meterWh)] else w.sessions)
    case Wait(d) => w.(now := w.now + d)
  }

  // ---------------------------------------------------------------- the invariant

  /** A completed session booked the difference of the truncated readings, without a rollover. */
  predicate SessionOK(rows: Rows, s: Session) {
    && 0.0 <= s.startWh <= s.stopWh
    && s.id in rows && !rows[s.id].Open()
    && rows[s.id].meterStart == Truncated(s.startWh) && rows[s.id].meterStop == Some(Truncated(s.stopWh))
    && rows[s.id].totalConsumption == Some((Truncated(s.stopWh) - Truncated(s.startWh)) / 1000.0)
  }

  /** The session in progress: its row is the connector's open one, and row and registry show the last reading
      the charger reported. */
  predicate CurrentOK(w: World) {
    var id := w.charger.transaction;
    var rows := w.sys.table.rows;
    && Known(rows, ID, id) && rows[id].Open() && rows[id].connectorID == CONNECTOR && id > 0
    && rows[id].meterStart == Truncated(w.startWh) && w.startWh <= w.charger.meterWh
    && (rows[id].meterStop.Some? ==> rows[id].meterStop.value == Rounded(w.charger.meterWh))
    && G.ConnectorOf(w.sys.chargers, ID, CONNECTOR).lastMeter
       == Some(if rows[id].meterStop.Some? then Rounded(w.charger.meterWh) else Truncated(w.charger.meterWh))
  }

  /** Consecutive sessions meet: energy only flows inside a session. */
  predicate Chained(w: World, initialWh: real) {
    && (w.sessions != [] ==> w.sessions[0].startWh == initialWh)
    && (forall i :: 0 <= i < |w.sessions| - 1 ==> w.sessions[i].stopWh == w.sessions[i + 1].startWh)
    && (if w.charger.transaction != 0 then w.startWh else w.charger.meterWh) == LastStop(w.sessions, initialWh)
  }

  function LastStop(sessions: seq<Session>, initialWh: real): real {
    if sessions == [] then initialWh else sessions[|sessions| - 1].stopWh
  }

  ghost predicate WorldInv(w: World, initialWh: real) {
    && 0.0 <= initialWh && 0.0 <= w.charger.meterWh && 0.0 <= w.startWh
    && TableInv(w.sys.table, w.now) && S.OneOpen(w.sys.table.rows)
    && (w.charger.transaction == 0 ==> forall x :: !S.Busy(w.sys.table.rows, ID, CONNECTOR, x))
    && (w.charger.transaction != 0 ==> CurrentOK(w))
    && (forall i :: 0 <= i < |w.sessions| ==> SessionOK(w.sys.table.rows, w.sessions[i]))
    && Chained(w, initialWh)
  }

  lemma TruncatedMonotone(a: real, b: real)
    requires 0.0 <= a <= b
    ensures 0.0 <= Truncated(a) <= Truncated(b) <= Rounded(b) <= Truncated(b) + 1.0
    ensures b - 1.0 < Truncated(b) <= b
  {
    assert a.Floor <= b.Floor;
  }

  /** Meter values of a session never take the rollover branch of the store's delta. */
  lemma NoRollover(startWh: real, nowWh: real)
    requires 0.0 <= startWh <= nowWh
    ensures DeltaWh(Truncated(startWh), Rounded(nowWh)) == Rounded(nowWh) - Truncated(startWh)
    ensures DeltaWh(Truncated(startWh), Truncated(nowWh)) == Truncated(nowWh) - Truncated(startWh)
  {
    TruncatedMonotone(startWh, nowWh);
  }

  /** The created row, next to an otherwise unchanged table. */
  lemma CreateOutcome(w: World, e: Event)
    requires e.Start? && Enabled(w, e) && TableInv(w.sys.table, w.now) && S.OneOpen(w.sys.table.rows)
    requires S.Decide(e.open, CONNECTOR, e.idTag, Truncated(w.charger.meterWh)).Fresh?
    ensures var wh := Truncated(w.charger.meterWh);
            var t := w.sys.table;
            var t' := Apply(t, Create(Request(ID, CONNECTOR, wh, e.idTag, e.single), e.uuid, e.draws), w.now);
            && TableInv(t', w.now) && S.OneOpen(t'.rows)
            && match FirstFree(t.rows, e.draws)
               case None => t' == t
               case Some(id) =>
                 && id > 0 && id !in t.rows && Known(t'.rows, ID, id) && t'.rows[id].Open()
                 && t'.rows[id].connectorID == CONNECTOR && t'.rows[id].meterStart == wh && t'.rows[id].meterStop.None?
                 && (forall x :: x in t.rows ==> x in t'.rows && t'.rows[x] == t.rows[x])
  {
    var t := w.sys.table;
    var call := S.Call(CONNECTOR, e.idTag, Truncated(w.charger.meterWh), e.open);
    FirstFreeIsFree(t.rows, e.draws);
    S.ListingKeepsInv(t.rows, map[], ID, call);
    ApplyKeepsInv(t, Create(S.RequestOf(ID, call, e.single), e.uuid, e.draws), w.now, w.now);
    S.CreateKeepsStartInv(t, map[ID := call], ID, e.single, e.uuid, e.draws, w.now, w.now);
  }

  lemma StartKeepsInv(w: World, e: Event, initialWh: real)
    requires WorldInv(w, initialWh) && Enabled(w, e) && e.Start?
    ensures WorldInv(Next(w, e), initialWh)
  {
    if Asks(w, e) {
      var w' := Next(w, e);
      S.DecisionIndependentOfOrder(e.open, w.sys.table.rows, ID, CONNECTOR, e.idTag, Truncated(w.charger.meterWh), 0);
      CreateOutcome(w, e);
      StartOutcome(w, e);
      TruncatedMonotone(w.charger.meterWh, w.charger.meterWh);
      SessionsUntouched(w.sys.table.rows, w'.sys.table.rows, w.sessions);
    }
  }

  /** On a free connector the central system creates a transaction, or has no ID left and refuses. */
  lemma StartOutcome(w: World, e: Event)
    requires e.Start? && Asks(w, e)
    requires S.Decide(e.open, CONNECTOR, e.idTag, Truncated(w.charger.meterWh)).Fresh?
    ensures var wh := Truncated(w.charger.meterWh);
            var op := Create(Request(ID, CONNECTOR, wh, e.idTag, e.single), e.uuid, e.draws);
            var id := FirstFree(w.sys.table.rows, e.draws);
            && Next(w, e).sys.table == Apply(w.sys.table, op, w.now)
            && (id.None? ==> Next(w, e).charger.transaction == 0 && Next(w, e).charger.meterWh == w.charger.meterWh)
            && (id.Some? ==>
                  Next(w, e).charger.transaction == id.value
                  && Next(w, e).charger.meterWh == w.charger.meterWh)
            && Next(w, e).startWh == w.charger.meterWh && Next(w, e).now == w.now && Next(w, e).sessions == w.sessions
            && (id.Some? ==> G.ConnectorOf(Next(w, e).sys.chargers, ID, CONNECTOR).lastMeter == Some(wh))
  {
    FirstFreeIsFree(w.sys.table.rows, e.draws);
  }

  /** Completed sessions only depend on closed rows. */
  lemma SessionsUntouched(rows: Rows, rows': Rows, sessions: seq<Session>)
    requires forall i :: 0 <= i < |sessions| ==> SessionOK(rows, sessions[i])
    requires forall x :: x in rows && !rows[x].Open() ==> x in rows' && rows'[x] == rows[x]
    ensures forall i :: 0 <= i < |sessions| ==> SessionOK(rows', sessions[i])
  {
    forall i | 0 <= i < |sessions| ensures SessionOK(rows', sessions[i]) { assert SessionOK(rows, sessions[i]); }
  }

  /** What a meter value makes of the session's row: a new reading, perhaps a limit flag, nothing else. */
  lemma MeterOutcome(t: Table, id: int, meterWh: real, now: int)
    requires TableInv(t, now) && S.OneOpen(t.rows) && Known(t.rows, ID, id)
    ensures var t' := MeteredAndChecked(t, ID, id, meterWh, now);
            && TableInv(t', now) && S.OneOpen(t'.rows) && t'.rows.Keys == t.rows.Keys
            && t'.rows[id].(limitStopRequested := t.rows[id].limitStopRequested) == Metered(t.rows[id], meterWh)
            && (forall x :: x in t.rows && x != id ==> t'.rows[x] == t.rows[x])
  {
    var live := LiveMeter(ID, id, meterWh);
    ApplyKeepsInv(t, live, now, now);
    S.OtherOpKeepsStartInv(t, map[], live, now, now);
    ApplyKeepsInv(Apply(t, live, now), CheckLimit(ID, id), now, now);
    S.OtherOpKeepsStartInv(Apply(t, live, now), map[], CheckLimit(ID, id), now, now);
  }

  /** What the stop makes of it: closed with the truncated reading, without a rollover, and confirmed. */
  lemma StopOutcome(w: World, id: int)
    requires TableInv(w.sys.table, w.now) && S.OneOpen(w.sys.table.rows)
    requires id == w.charger.transaction && CurrentOK(w) && 0.0 <= w.startWh
    ensures var t' := Apply(w.sys.table, Op.Stop(ID, id, Truncated(w.charger.meterWh)), w.now);
            && TableInv(t', w.now) && S.OneOpen(t'.rows)
            && SessionOK(t'.rows, Session(id, w.startWh, w.charger.meterWh))
            && R.CompletedOK(t'.rows[id])
            && (forall x :: x in w.sys.table.rows && x != id ==> x in t'.rows && t'.rows[x] == w.sys.table.rows[x])
            && (forall x :: S.Busy(t'.rows, ID, CONNECTOR, x) ==> x != id && S.Busy(w.sys.table.rows, ID, CONNECTOR, x))
  {
    var stop := Op.Stop(ID, id, Truncated(w.charger.meterWh));
    NoRollover(w.startWh, w.charger.meterWh);
    TruncatedMonotone(w.startWh, w.charger.meterWh);
    ApplyKeepsInv(w.sys.table, stop, w.now, w.now);
    S.OtherOpKeepsStartInv(w.sys.table, map[], stop, w.now, w.now);
  }

  lemma StopConfirmed(w: World, statusOK: bool)
    requires w.charger.transaction != 0 && Known(w.sys.table.rows, ID, w.charger.transaction)
    requires var t' := Apply(w.sys.table, Op.Stop(ID, w.charger.transaction, Truncated(w.charger.meterWh)), w.now);
             R.CompletedOK(t'.rows[w.charger.transaction])
    ensures var w' := Next(w, EndSession(statusOK));
            && w'.sys.table == Apply(w.sys.table, Op.Stop(ID, w.charger.transaction, Truncated(w.charger.meterWh)),
                 w.now)
            && w'.charger.transaction == 0 && w'.charger.meterWh == w.charger.meterWh
            && w'.startWh == w.startWh && w'.now == w.now
            && w'.sessions == w.sessions + [Session(w.charger.transaction, w.startWh, w.charger.meterWh)]
  {}

  lemma StopKeepsChain(w: World, initialWh: real)
    requires Chained(w, initialWh) && w.charger.transaction != 0
    ensures var longer := w.sessions + [Session(w.charger.transaction, w.startWh, w.charger.meterWh)];
            Chained(w.(sessions := longer, charger := w.charger.(transaction := 0)), initialWh)
  {}

  lemma StopKeepsInv(w: World, statusOK: bool, initialWh: real)
    requires WorldInv(w, initialWh)
    ensures WorldInv(Next(w, EndSession(statusOK)), initialWh)
    ensures w.charger.transaction != 0 ==>
              Next(w, EndSession(statusOK)).charger.transaction == 0
              && |Next(w, EndSession(statusOK)).sessions| == |w.sessions| + 1
  {
    if w.charger.transaction != 0 {
      var id := w.charger.transaction;
      StopOutcome(w, id);
      StopConfirmed(w, statusOK);
      StopKeepsChain(w, initialWh);
      var w' := Next(w, EndSession(statusOK));
      SessionsUntouched(w.sys.table.rows, w'.sys.table.rows, w.sessions);
    }
  }

  lemma TickOutcome(w: World, e: Event)
    requires e.Tick? && w.charger.transaction > 0 && Known(w.sys.table.rows, ID, w.charger.transaction)
    requires e.hours >= 0.0 && e.powerKW >= 0.0
    ensures var w' := Next(w, e);
            && w'.sys.table == MeteredAndChecked(w.sys.table, ID, w.charger.transaction, Rounded(w'.charger.meterWh),
                 w.now)
            && w'.charger.transaction == w.charger.transaction && w'.charger.meterWh >= w.charger.meterWh
            && w'.startWh == w.startWh && w'.now == w.now && w'.sessions == w.sessions
            && G.ConnectorOf(w'.sys.chargers, ID, CONNECTOR).lastMeter == Some(Rounded(w'.charger.meterWh))
  {
    assert e.powerKW * 1000.0 * e.hours >= 0.0;
  }

  lemma TickKeepsInv(w: World, e: Event, initialWh: real)
    requires WorldInv(w, initialWh) && e.Tick?
    ensures WorldInv(Next(w, e), initialWh)
  {
    if w.charger.transaction != 0 && e.hours >= 0.0 && e.powerKW >= 0.0 {
      var id := w.charger.transaction;
      var w' := Next(w, e);
      TickOutcome(w, e);
      MeterOutcome(w.sys.table, id, Rounded(w'.charger.meterWh), w.now);
      TruncatedMonotone(w.startWh, w'.charger.meterWh);
      SessionsUntouched(w.sys.table.rows, w'.sys.table.rows, w.sessions);
    }
  }

  ghost predicate ValidRun(w: World, es: seq<Event>)
    decreases |es|
  {
    es == [] || (Enabled(w, es[0]) && ValidRun(Next(w, es[0]), es[1..]))
  }

  function Run(w: World, es: seq<Event>): World
    decreases |es|
  {
    if es == [] then w else Run(Next(w, es[0]), es[1..])
  }

  lemma {:induction false} RunKeepsInv(w: World, es: seq<Event>, initialWh: real)
    requires WorldInv(w, initialWh) && ValidRun(w, es)
    ensures WorldInv(Run(w, es), initialWh)
    decreases |es|
  {
    if es != [] {
      match es[0] {
        case Start(_, _, _, _, _, _, _, _, _) => StartKeepsInv(w, es[0], initialWh);
        case Tick(_, _) => TickKeepsInv(w, es[0], initialWh);
        case EndSession(statusOK) => StopKeepsInv(w, statusOK, initialWh);
        case Wait(_) =>
      }
      RunKeepsInv(Next(w, es[0]), es[1..], initialWh);
    }
  }

  // ---------------------------------------------------------------- conservation

  /** The Wh totals of the completed sessions, as stored. */
  function BookedWh(rows: Rows, sessions: seq<Session>): real {
    if sessions == [] then 0.0
    else
      var last := sessions[|sessions| - 1];
      BookedWh(rows, sessions[..|sessions| - 1])
      + if last.id in rows && rows[last.id].totalConsumption.Some? then rows[last.id].totalConsumption.value * 1000.0
          else 0.0
  }

  lemma {:induction false} SessionsTelescope(rows: Rows, sessions: seq<Session>, initialWh: real)
    requires forall i :: 0 <= i < |sessions| ==> SessionOK(rows, sessions[i])
    requires sessions != [] ==> sessions[0].startWh == initialWh
    requires forall i :: 0 <= i < |sessions| - 1 ==> sessions[i].stopWh == sessions[i + 1].startWh
    ensures BookedWh(rows, sessions) == Truncated(LastStop(sessions, initialWh)) - Truncated(initialWh)
  {
    if sessions != [] {
      var init := sessions[..|sessions| - 1];
      SessionsTelescope(rows, init, initialWh);
      assert SessionOK(rows, sessions[|sessions| - 1]);
    }
  }

  /** A charger that starts idle, next to any consistent table in which its connector is free. */
  ghost predicate Fresh(w: World) {
    && w.charger.transaction == 0 && w.sessions == [] && 0.0 <= w.charger.meterWh && w.startWh == 0.0
    && TableInv(w.sys.table, w.now) && S.OneOpen(w.sys.table.rows)
    && forall x :: !S.Busy(w.sys.table.rows, ID, CONNECTOR, x)
  }

  /** Conservation: over any number of sessions the stored totals add up to the difference of the truncated
      registers exactly: no energy is lost or counted twice between sessions. */
  lemma EnergyIsConserved(w: World, es: seq<Event>)
    requires Fresh(w) && ValidRun(w, es)
    ensures var w' := Run(w, es);
            && BookedWh(w'.sys.table.rows, w'.sessions)
               == Truncated(LastStop(w'.sessions, w.charger.meterWh)) - Truncated(w.charger.meterWh)
            && (w'.charger.transaction == 0 ==>
                  BookedWh(w'.sys.table.rows, w'.sessions)
                      == Truncated(w'.charger.meterWh) - Truncated(w.charger.meterWh))
  {
    RunKeepsInv(w, es, w.charger.meterWh);
    var w' := Run(w, es);
    SessionsTelescope(w'.sys.table.rows, w'.sessions, w.charger.meterWh);
  }

  /** Each session's total is within 1 Wh of the energy that flowed in it. */
  lemma SessionWithinOneWh(w: World, es: seq<Event>, i: nat)
    requires Fresh(w) && ValidRun(w, es) && i < |Run(w, es).sessions|
    ensures var s := Run(w, es).sessions[i];
            var rows := Run(w, es).sys.table.rows;
            && s.id in rows && rows[s.id].totalConsumption.Some?
            && -1.0 < rows[s.id].totalConsumption.value * 1000.0 - (s.stopWh - s.startWh) < 1.0
  {
    RunKeepsInv(w, es, w.charger.meterWh);
    var s := Run(w, es).sessions[i];
    assert SessionOK(Run(w, es).sys.table.rows, s);
    TruncatedMonotone(s.startWh, s.startWh);
    TruncatedMonotone(s.stopWh, s.stopWh);
  }

  lemma LiveTotal(w: World, initialWh: real)
    requires WorldInv(w, initialWh) && w.charger.transaction != 0
    ensures var rows, id := w.sys.table.rows, w.charger.transaction;
            && id in rows
            && (rows[id].meterStop.Some? ==>
                  rows[id].totalConsumption == Some((rows[id].meterStop.value - rows[id].meterStart) / 1000.0))
  {
    NoRollover(w.startWh, w.charger.meterWh);
    assert RowOK(w.charger.transaction, w.sys.table.rows[w.charger.transaction], w.sys.table.nextRowID, w.now);
  }

  /** Nor does a live total ever take the rollover branch: while a session runs its stored total is the plain
      difference of the reported readings. */
  lemma LiveTotalIsPlainDifference(w: World, es: seq<Event>)
    requires Fresh(w) && ValidRun(w, es) && Run(w, es).charger.transaction != 0
    ensures var rows := Run(w, es).sys.table.rows;
            var id := Run(w, es).charger.transaction;
            && id in rows
            && (rows[id].meterStop.Some? ==>
                  rows[id].totalConsumption == Some((rows[id].meterStop.value - rows[id].meterStart) / 1000.0))
  {
    RunKeepsInv(w, es, w.charger.meterWh);
    LiveTotal(Run(w, es), w.charger.meterWh);
  }

  /** The registry's per-step delta is another matter: in every run, the stop of a session takes its rollover
      branch, and shows almost a whole turn, exactly when the last reported meter value was rounded up. */
  lemma StopShowsRolloverIff(w: World, es: seq<Event>, statusOK: bool)
    requires Fresh(w) && ValidRun(w, es) && Run(w, es).charger.transaction != 0
    ensures var w1 := Run(w, es);
            var rows := w1.sys.table.rows;
            && w1.charger.transaction in rows
            && G.ConnectorOf(Next(w1, EndSession(statusOK)).sys.chargers, ID, CONNECTOR).lastConsumptionKWh * 1000.0
               == if rows[w1.charger.transaction].meterStop.Some?
                   && Rounded(w1.charger.meterWh) > Truncated(w1.charger.meterWh)
                  then MODULUS - 1.0 else 0.0
  {
    RunKeepsInv(w, es, w.charger.meterWh);
    var w1 := Run(w, es);
    StopOutcome(w1, w1.charger.transaction);
    TruncatedMonotone(w1.charger.meterWh, w1.charger.meterWh);
    StopTellsRegistry(w1, statusOK);
  }

  lemma StopTellsRegistry(w: World, statusOK: bool)
    requires w.charger.transaction != 0 && Known(w.sys.table.rows, ID, w.charger.transaction)
    requires w.sys.table.rows[w.charger.transaction].connectorID == CONNECTOR
    requires G.ConnectorOf(w.sys.chargers, ID, CONNECTOR).lastMeter.Some?
    requires var t' := Apply(w.sys.table, Op.Stop(ID, w.charger.transaction, Truncated(w.charger.meterWh)), w.now);
             R.CompletedOK(t'.rows[w.charger.transaction])
    ensures G.ConnectorOf(Next(w, EndSession(statusOK)).sys.chargers, ID, CONNECTOR).lastConsumptionKWh
         == DeltaWh(G.ConnectorOf(w.sys.chargers, ID, CONNECTOR).lastMeter.value, Truncated(w.charger.meterWh)) / 1000.0
  {}

  /** An idle charger with 100 Wh on its register, and an empty central system. */
  function Factory(): World {
    World(Charger("Available", true, "", 0, 100.0, 0.0, false), System(Table(1, map[]), O.Outbox(0, map[]), map[]),
          0.0, [], 0)
  }

  /** One session in which 0.6 Wh flow. */
  function ShortSession(): seq<Event> {
    [Start("USER-1", false, true, true, true, false, [], "uuid", Always(7)), Tick(1.0, 0.0006)]
  }

  lemma ShortSessionRuns() returns (w1: World, w2: World)
    ensures Fresh(Factory()) && ValidRun(Factory(), ShortSession()) && Run(Factory(), ShortSession()) == w2
    ensures w1 == Next(Factory(), ShortSession()[0]) && w2 == Next(w1, ShortSession()[1])
  {
    w1 := Next(Factory(), ShortSession()[0]);
    w2 := Next(w1, ShortSession()[1]);
    assert ShortSession()[1..][1..] == [];
  }

  lemma ShortSessionEndsAt()
    ensures ValidRun(Factory(), ShortSession())
    ensures var w := Run(Factory(), ShortSession());
            w.charger.transaction == 7 && w.charger.meterWh == 100.6 && Known(w.sys.table.rows, ID, 7)
            && w.sys.table.rows[7].meterStop.Some? && w.sys.table.rows[7].meterStart == 100.0 && w.startWh == 100.0
  {
    var w1, w2 := ShortSessionRuns();
    assert Always(7)[0] == 7;
    assert FirstFree(map[], Always(7)) == Some(7);
    StartOutcome(Factory(), ShortSession()[0]);
    assert w1.charger.transaction == 7 && Known(w1.sys.table.rows, ID, 7);
    TickOutcome(w1, ShortSession()[1]);
  }

  /** A stop books the difference of the truncated registers. */
  lemma StopBooks(w: World, statusOK: bool, initialWh: real)
    requires WorldInv(w, initialWh) && w.charger.transaction != 0
    ensures var rows := Next(w, EndSession(statusOK)).sys.table.rows;
            && w.charger.transaction in rows
            && rows[w.charger.transaction].totalConsumption
                 == Some((Truncated(w.charger.meterWh) - Truncated(w.startWh)) / 1000.0)
  {
    StopOutcome(w, w.charger.transaction);
    StopConfirmed(w, statusOK);
  }

  lemma ShortSessionBooked()
    ensures Fresh(Factory()) && ValidRun(Factory(), ShortSession())
    ensures var w := Next(Run(Factory(), ShortSession()), EndSession(true));
            7 in w.sys.table.rows && w.sys.table.rows[7].totalConsumption == Some(0.0)
  {
    var _, w2 := ShortSessionRuns();
    ShortSessionEndsAt();
    RunKeepsInv(Factory(), ShortSession(), 100.0);
    StopBooks(w2, true, 100.0);
    assert Truncated(100.6) == 100.0 == Truncated(100.0);
  }

  /** It is booked as 0 kWh, and shown as 4294967.295. */
  lemma ShortSessionShowsRollover()
    ensures Fresh(Factory()) && ValidRun(Factory(), ShortSession())
    ensures var w := Next(Run(Factory(), ShortSession()), EndSession(true));
            && 7 in w.sys.table.rows && w.sys.table.rows[7].totalConsumption == Some(0.0)
            && G.ConnectorOf(w.sys.chargers, ID, CONNECTOR).lastConsumptionKWh == 4294967.295
  {
    var _, _ := ShortSessionRuns();
    ShortSessionEndsAt();
    ShortSessionBooked();
    StopShowsRolloverIff(Factory(), ShortSession(), true);
    assert Truncated(100.6) == 100.0 && Rounded(100.6) == 101.0;
  }
}
