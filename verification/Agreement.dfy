/** Does the live registry agree with the store? One machine over the handlers, boot recovery and restarts of the
    central system. Every store access and every registry access is one step of its own, so a handler may be
    overtaken between writing the one and the other, by recovery of the same charger too. */
module Agreement {
  import opened Wrappers
  import opened Rows
  import opened Handlers
  import R = Reconcile
  import S = Starts
  import G = Registry
  import StatusText

  /** What a charger's call still has to tell the registry. */
  datatype Call =
    | Starting(id: int, connector: int, meterStart: real)          // created or found, not yet shown
    | Stopping(id: int, connector: int, meterStop: real)           // stopped, its callback out, perhaps still shown
    | Metering(named: Option<int>, connector: int, meterWh: real)     // named, or read from the registry

  /** Where a recovery goroutine stands with the transaction it works on. */
  datatype Phase =
    | Refreshed   // read, found open
    | Ghost       // judged a ghost, about to be force-closed
    | Closed      // force-closed, the registry not yet told
    | Alive       // judged alive, about to be replayed
    | Replayed    // its start is replayed, its last meter value not yet

  /** The version of the row the goroutine read, and what it has done with it. */
  datatype Job = Job(tx: Transaction, phase: Phase)

  /** `unseen`: transactions that were open when the central system last restarted and that the new registry has
      not heard of yet. A charger has at most one call outstanding: in `starts` between listing and decision,
      in `calls` after it; and at most one recovery goroutine, in `jobs`. */
  datatype State = State(
    table: Table, chargers: G.Chargers, unseen: set<int>,
    starts: map<string, S.Call>, calls: map<string, Call>, jobs: map<string, Job>, now: int)
  {
    predicate Idle(c: string) { c !in starts && c !in calls }

    function Shown(c: string, connector: int): Option<int> { G.TransactionOn(chargers, c, connector) }

    ghost predicate Busy(c: string, connector: int, id: int) { S.Busy(table.rows, c, connector, id) }

    ghost predicate Free(c: string, connector: int) { forall id :: !Busy(c, connector, id) }

    predicate On(c: string, connector: int, id: int) { id in table.rows && table.rows[id].On(c, connector) }

    /** Recovery has force-closed it, and has yet to tell the registry. */
    predicate RecoveryClosing(c: string, connector: int, id: int) {
      On(c, connector, id) && c in jobs && jobs[c].phase.Closed? && jobs[c].tx.transactionID == id
    }

    /** A stop has closed it, and has yet to tell the registry. */
    predicate StopClosing(c: string, connector: int, id: int) {
      On(c, connector, id) && c in calls && calls[c].Stopping? && calls[c].id == id
    }

    predicate ClosingInFlight(c: string, connector: int, id: int) {
      RecoveryClosing(c, connector, id) || StopClosing(c, connector, id)
    }

    /** A start has it in hand, and has yet to tell the registry. */
    predicate Opening(c: string, connector: int, id: int) {
      c in calls && calls[c].Starting? && calls[c].id == id && calls[c].connector == connector
    }

    /** The connector has no open transaction but one that is about to be shown. */
    ghost predicate FreeButOpening(c: string, connector: int) {
      forall id :: Busy(c, connector, id) ==> Opening(c, connector, id)
    }
  }

  datatype Event =
    | StartListed(chargerID: string, call: S.Call)
    | StartDecided(chargerID: string, single: bool, uuid: string, draws: Draws)
    | TellStart(chargerID: string)
    | StopStored(chargerID: string, id: int, meterStop: real, hookOK: bool)
    | TellStopped(chargerID: string)
    | MeterBegins(chargerID: string, connectorID: int, named: Option<int>, extracted: Option<real>)
    | TellMeter(chargerID: string)
    | Refresh(chargerID: string, id: int)
    | Judge(chargerID: string)
    | CloseGhost(chargerID: string, storeOK: bool)
    | TellClosed(chargerID: string)
    | ReplayStart(chargerID: string)
    | ReplayMeter(chargerID: string)
    | StatusNotification(chargerID: string, connectorID: int, status: string, errorCode: string)
    | Connected(chargerID: string)
    | Disconnected(chargerID: string)
    | OtherWrite(op: Op)     // meter values, limits and claims, by whoever
    | Restart
    | Wait(seconds: nat)

  /** isGhostAvailableTransaction: the connector is known, free, and claims no other transaction. */
  predicate IsGhost(chargers: G.Chargers, tx: Transaction) {
    && tx.chargerID in chargers && tx.connectorID in chargers[tx.chargerID].connectors
    && StatusText.IsAvailable(chargers[tx.chargerID].connectors[tx.connectorID].status)
    && (G.TransactionOn(chargers, tx.chargerID, tx.connectorID).None?
        || G.TransactionOn(chargers, tx.chargerID, tx.connectorID) == Some(tx.transactionID))
  }

  predicate InPhase(s: State, c: string, phase: Phase) { c in s.jobs && s.jobs[c].phase == phase }

  ghost predicate Enabled(s: State, e: Event) {
    match e
    case StartListed(c, call) => s.Idle(c) && S.Lists(call.open, s.table.rows, c)
    case StartDecided(c, _, _, _) => c in s.starts
    case TellStart(c) => c in s.calls && s.calls[c].Starting?
    case StopStored(c, _, _, _) => s.Idle(c)
    case TellStopped(c) => c in s.calls && s.calls[c].Stopping?
    case MeterBegins(c, _, _, _) => s.Idle(c)
    case TellMeter(c) => c in s.calls && s.calls[c].Metering?
    case Refresh(c, id) => c !in s.jobs && Known(s.table.rows, c, id) && s.table.rows[id].Open()
    case Judge(c) => InPhase(s, c, Refreshed)
    case CloseGhost(c, _) => InPhase(s, c, Ghost)
    case TellClosed(c) => InPhase(s, c, Closed)
    case ReplayStart(c) => InPhase(s, c, Alive)
    case ReplayMeter(c) => InPhase(s, c, Replayed) && s.jobs[c].tx.meterStop.Some?
    case OtherWrite(op) => !op.Create? && !op.Stop? && !op.ForceClose?
    case _ => true
  }

  /** The store operation of an enabled event, if it makes one. */
  ghost function OpOf(s: State, e: Event): Option<Op>
    requires Enabled(s, e)
  {
    match e
    case StartDecided(c, single, uuid, draws) =>
      if S.DecisionOf(s.starts[c]).Fresh? then Some(Create(S.RequestOf(c, s.starts[c], single), uuid, draws)) else None
    case StopStored(c, id, m, _) => Some(Stop(c, id, m))
    case CloseGhost(c, storeOK) =>
      var tx := s.jobs[c].tx;
      if storeOK then Some(ForceClose(c, tx.transactionID, LastKnownMeter(tx))) else None
    case OtherWrite(op) => Some(op)
    case _ => None
  }

  ghost function TableNext(s: State, e: Event): Table
    requires Enabled(s, e)
  {
    var op := OpOf(s, e);
    if op.Some? then Apply(s.table, op.value, s.now) else s.table
  }

  /** hydrateOpenTransaction: replay the start and the last meter value. */
  function StartReplayed(chargers: G.Chargers, tx: Transaction): G.Chargers {
    G.AfterStart(chargers, tx.chargerID, tx.connectorID, tx.transactionID, tx.meterStart)
  }

  function MeterReplayed(chargers: G.Chargers, tx: Transaction): G.Chargers {
    if tx.meterStop.None? then chargers
    else G.AfterMeter(chargers, tx.chargerID, tx.connectorID, Some(tx.transactionID), tx.meterStop.value)
  }

  function Hydrated(chargers: G.Chargers, tx: Transaction): G.Chargers {
    MeterReplayed(StartReplayed(chargers, tx), tx)
  }

  ghost function ChargersNext(s: State, e: Event): G.Chargers
    requires Enabled(s, e)
  {
    match e
    case StartListed(c, _) => G.Touched(s.chargers, c)
    case TellStart(c) => G.AfterStart(s.chargers, c, s.calls[c].connector, s.calls[c].id, s.calls[c].meterStart)
    case StopStored(c, _, _, _) => G.Touched(s.chargers, c)
    case TellStopped(c) => G.AfterStop(s.chargers, c, s.calls[c].connector, s.calls[c].meterStop)
    case MeterBegins(c, _, _, _) => G.Touched(s.chargers, c)
    case TellMeter(c) => G.AfterMeter(s.chargers, c, s.calls[c].connector, s.calls[c].named, s.calls[c].meterWh)
    case TellClosed(c) => G.AfterStop(s.chargers, c, s.jobs[c].tx.connectorID, LastKnownMeter(s.jobs[c].tx))
    case ReplayStart(c) => StartReplayed(s.chargers, s.jobs[c].tx)
    case ReplayMeter(c) => MeterReplayed(s.chargers, s.jobs[c].tx)
    case StatusNotification(c, connector, status, code) => G.AfterStatus(s.chargers, c, connector, status, code)
    case Connected(c) => G.Touched(s.chargers, c)
    case Disconnected(c) => G.Offline(s.chargers, c)
    case Restart => map[]
    case _ => s.chargers
  }

  ghost function StartsNext(s: State, e: Event): map<string, S.Call> {
    match e
    case StartListed(c, call) => s.starts[c := call]
    case StartDecided(c, _, _, _) => s.starts - {c}
    case Restart => map[]
    case _ => s.starts
  }

  /** The transaction a start ends up with. */
  ghost function StartedWith(s: State, c: string, draws: Draws): Option<int>
    requires c in s.starts
  {
    match S.DecisionOf(s.starts[c])
    case Retry(tx) => Some(tx.transactionID)
    case Overlap(_) => None
    case Fresh => FirstFree(s.table.rows, draws)
  }

  /** A completed callback of this stop would be enqueued. */
  predicate CallbackGoesOut(s: State, id: int, meterStop: real, hookOK: bool)
    requires id in s.table.rows
  {
    hookOK && R.CompletedOK(Stopped(s.table.rows[id], meterStop, s.now))
  }

  ghost function CallsNext(s: State, e: Event): map<string, Call>
    requires Enabled(s, e)
  {
    match e
    case StartDecided(c, _, _, draws) =>
      var id := StartedWith(s, c, draws);
      if id.Some? then s.calls[c := Starting(id.value, s.starts[c].connectorID, s.starts[c].meterStart)] else s.calls
    case StopStored(c, id, m, hookOK) =>
      if Known(s.table.rows, c, id) && CallbackGoesOut(s, id, m, hookOK)
      then s.calls[c := Stopping(id, s.table.rows[id].connectorID, m)] else s.calls
    case MeterBegins(c, connector, named, extracted) =>
      if extracted.Some? then s.calls[c := Metering(BookedOn(s.chargers, c, connector, named), connector,
          extracted.value)]
      else s.calls
    case TellStart(c) => s.calls - {c}
    case TellStopped(c) => s.calls - {c}
    case TellMeter(c) => s.calls - {c}
    case Restart => map[]
    case _ => s.calls
  }

  ghost function JobsNext(s: State, e: Event): map<string, Job>
    requires Enabled(s, e)
  {
    match e
    case Refresh(c, id) => s.jobs[c := Job(s.table.rows[id], Refreshed)]
    case Judge(c) => s.jobs[c := s.jobs[c].(phase := if IsGhost(s.chargers, s.jobs[c].tx) then Ghost else Alive)]
    case CloseGhost(c, storeOK) => if storeOK then s.jobs[c := s.jobs[c].(phase := Closed)] else s.jobs - {c}
    case TellClosed(c) => s.jobs - {c}
    case ReplayStart(c) =>
      if s.jobs[c].tx.meterStop.Some? then s.jobs[c := s.jobs[c].(phase := Replayed)] else s.jobs - {c}
    case ReplayMeter(c) => s.jobs - {c}
    case Restart => map[]
    case _ => s.jobs
  }

  /** The registry shows it somewhere. */
  ghost predicate ShownSomewhere(chargers: G.Chargers, id: int) {
    exists c, connector :: G.TransactionOn(chargers, c, connector) == Some(id)
  }

  ghost function UnseenNext(s: State, e: Event): set<int>
    requires Enabled(s, e)
  {
    if e.Restart? then set id | id in s.table.rows && s.table.rows[id].Open()
    else set id | id in s.unseen && !ShownSomewhere(ChargersNext(s, e), id)
  }

  ghost function Next(s: State, e: Event): State
    requires Enabled(s, e)
  {
    State(TableNext(s, e), ChargersNext(s, e), UnseenNext(s, e), StartsNext(s, e), CallsNext(s, e), JobsNext(s, e),
          if e.Wait? then s.now + e.seconds else s.now)
  }

  // ---------------------------------------------------------------- agreement

  /** Agreement on one connector: the registry shows its open transaction; or one whose close it is about to be
      told of; or nothing, and then what is open is about to be shown, or unheard of since the restart. */
  ghost predicate AgreesOn(s: State, c: string, connector: int) {
    match s.Shown(c, connector)
    case Some(id) =>
      || (s.Busy(c, connector, id) && id !in s.unseen)
      || (s.ClosingInFlight(c, connector, id) && s.FreeButOpening(c, connector))
    case None => forall id :: s.Busy(c, connector, id) ==> id in s.unseen || s.Opening(c, connector, id)
  }

  ghost predicate Agrees(s: State) {
    forall c, connector :: AgreesOn(s, c, connector)
  }

  /** The other way round: every open transaction is shown on its own connector, or is about to be, or is
      unseen. */
  lemma EveryOpenIsShown(s: State, id: int)
    requires StateInv(s) && Agrees(s) && id in s.table.rows && s.table.rows[id].Open()
    ensures var tx := s.table.rows[id];
            || s.Shown(tx.chargerID, tx.connectorID) == Some(id)
            || s.Opening(tx.chargerID, tx.connectorID, id)
            || (s.Shown(tx.chargerID, tx.connectorID).None? && id in s.unseen)
  {
    var tx := s.table.rows[id];
    assert AgreesOn(s, tx.chargerID, tx.connectorID);
    assert s.Busy(tx.chargerID, tx.connectorID, id);
  }

  // ---------------------------------------------------------------- which steps keep agreement

  /** A stop of the transaction the registry shows must get its callback out. */
  ghost predicate StopBehaves(s: State, c: string, id: int, meterStop: real, hookOK: bool) {
    Known(s.table.rows, c, id) && s.table.rows[id].Open() && s.Shown(c, s.table.rows[id].connectorID) == Some(id) ==>
      CallbackGoesOut(s, id, meterStop, hookOK)
  }

  /** A registry write that empties a connector must not hide an open transaction, but for one that is about to
      be shown again. */
  ghost predicate MayEmpty(s: State, c: string, connector: int) {
    var shown := s.Shown(c, connector);
    shown.Some? && s.Busy(c, connector, shown.value) ==> s.Opening(c, connector, shown.value)
  }

  /** A handler's registry write that shows a transaction: it must still be open when the write lands, or
      recovery must be about to take it away again. */
  ghost predicate HandlerMayShow(s: State, c: string, connector: int, id: int) {
    s.Busy(c, connector, id) || (s.RecoveryClosing(c, connector, id) && s.Free(c, connector))
  }

  /** The same for recovery's replay: a stop may be about to take it away again. */
  ghost predicate RecoveryMayShow(s: State, c: string, connector: int, id: int) {
    s.Busy(c, connector, id) || (s.StopClosing(c, connector, id) && s.Free(c, connector))
  }

  /** The steps that keep agreement. */
  ghost predicate WellBehaved(s: State, e: Event)
    requires Enabled(s, e)
  {
    match e
    case StopStored(c, id, m, hookOK) => StopBehaves(s, c, id, m, hookOK)
    case TellStart(c) => HandlerMayShow(s, c, s.calls[c].connector, s.calls[c].id)
    case TellMeter(c) => s.calls[c].named.Some? ==> HandlerMayShow(s, c, s.calls[c].connector, s.calls[c].named.value)
    case TellStopped(c) => MayEmpty(s, c, s.calls[c].connector)
    case TellClosed(c) => MayEmpty(s, c, s.jobs[c].tx.connectorID)
    case ReplayStart(c) => RecoveryMayShow(s, c, s.jobs[c].tx.connectorID, s.jobs[c].tx.transactionID)
    case ReplayMeter(c) => RecoveryMayShow(s, c, s.jobs[c].tx.connectorID, s.jobs[c].tx.transactionID)
    case _ => true
  }

  // ---------------------------------------------------------------- the state invariant

  /** A job works on a row of its charger; after the force-close that row is closed. */
  ghost predicate JobOK(rows: Rows, c: string, job: Job) {
    && job.tx.chargerID == c && job.tx.transactionID in rows && SameIdentity(job.tx, rows[job.tx.transactionID])
    && (job.phase.Closed? ==> !rows[job.tx.transactionID].Open())
    && (job.phase.Replayed? ==> job.tx.meterStop.Some?)
  }

  /** A call tells of a row on its connector; a stopped one is closed. */
  ghost predicate CallOK(rows: Rows, c: string, call: Call) {
    match call
    case Starting(id, connector, _) => id in rows && rows[id].On(c, connector)
    case Stopping(id, connector, _) => id in rows && rows[id].On(c, connector) && !rows[id].Open()
    case Metering(_, _, _) => true
  }

  ghost predicate StateInv(s: State) {
    && TableInv(s.table, s.now)
    && S.StartInv(s.table.rows, s.starts)
    && s.unseen <= s.table.rows.Keys
    && (forall c :: c in s.jobs ==> JobOK(s.table.rows, c, s.jobs[c]))
    && (forall c :: c in s.calls ==> CallOK(s.table.rows, c, s.calls[c]) && c !in s.starts)
  }

  ghost predicate Good(s: State) { StateInv(s) && Agrees(s) }

  lemma TableStep(s: State, e: Event)
    requires StateInv(s) && Enabled(s, e)
    ensures TableInv(TableNext(s, e), s.now) && Extends(s.table.rows, TableNext(s, e).rows)
  {
    if OpOf(s, e).Some? { ApplyKeepsInv(s.table, OpOf(s, e).value, s.now, s.now); }
  }

  lemma StartsStep(s: State, e: Event)
    requires StateInv(s) && Enabled(s, e)
    ensures S.StartInv(TableNext(s, e).rows, StartsNext(s, e))
  {
    if e.StartListed? {
      S.ListingKeepsInv(s.table.rows, s.starts, e.chargerID, e.call);
    } else if e.StartDecided? {
      if S.DecisionOf(s.starts[e.chargerID]).Fresh? {
        S.CreateKeepsStartInv(s.table, s.starts, e.chargerID, e.single, e.uuid, e.draws, s.now, s.now);
      }
    } else if OpOf(s, e).Some? {
      S.OtherOpKeepsStartInv(s.table, s.starts, OpOf(s, e).value, s.now, s.now);
    }
  }

  lemma ExtendKeepsJobs(rows: Rows, rows': Rows, jobs: map<string, Job>)
    requires Extends(rows, rows') && forall c :: c in jobs ==> JobOK(rows, c, jobs[c])
    ensures forall c :: c in jobs ==> JobOK(rows', c, jobs[c])
  {}

  lemma ExtendKeepsCalls(rows: Rows, rows': Rows, calls: map<string, Call>)
    requires Extends(rows, rows') && forall c :: c in calls ==> CallOK(rows, c, calls[c])
    ensures forall c :: c in calls ==> CallOK(rows', c, calls[c])
  {}

  lemma JobsStep(s: State, e: Event)
    requires StateInv(s) && Enabled(s, e)
    ensures forall c :: c in JobsNext(s, e) ==> JobOK(TableNext(s, e).rows, c, JobsNext(s, e)[c])
  {
    TableStep(s, e);
    ExtendKeepsJobs(s.table.rows, TableNext(s, e).rows, s.jobs);
    if e.CloseGhost? { assert JobOK(s.table.rows, e.chargerID, s.jobs[e.chargerID]); }
  }

  /** A decided start has a row of its connector in hand. */
  lemma StartedIsOn(s: State, e: Event)
    requires StateInv(s) && Enabled(s, e) && e.StartDecided? && StartedWith(s, e.chargerID, e.draws).Some?
    ensures var id := StartedWith(s, e.chargerID, e.draws).value;
            id in TableNext(s, e).rows && TableNext(s, e).rows[id].On(e.chargerID, s.starts[e.chargerID].connectorID)
  {
    var call := s.starts[e.chargerID];
    FirstFreeIsFree(s.table.rows, e.draws);
    S.DecidePicks(call.open, call.connectorID, call.idTag, call.meterStart);
    assert S.CallOK(s.table.rows, e.chargerID, call);
  }

  lemma CallsStep(s: State, e: Event)
    requires StateInv(s) && Enabled(s, e)
    ensures forall c :: c in CallsNext(s, e) ==>
              CallOK(TableNext(s, e).rows, c, CallsNext(s, e)[c]) && c !in StartsNext(s, e)
  {
    TableStep(s, e);
    ExtendKeepsCalls(s.table.rows, TableNext(s, e).rows, s.calls);
    if e.StartDecided? && StartedWith(s, e.chargerID, e.draws).Some? { StartedIsOn(s, e); }
  }

  lemma StepKeepsStateInv(s: State, e: Event)
    requires StateInv(s) && Enabled(s, e)
    ensures StateInv(Next(s, e))
  {
    TableStep(s, e);
    StartsStep(s, e);
    JobsStep(s, e);
    CallsStep(s, e);
    if e.Wait? { LaterTableInv(s.table, s.now, s.now + e.seconds); }
  }

  lemma LaterTableInv(t: Table, before: int, now: int)
    requires TableInv(t, before) && before <= now
    ensures TableInv(t, now)
  {}

  // ---------------------------------------------------------------- what moves

  /** `after` is `before` with one connector's transaction replaced. */
  ghost predicate Moved(before: G.Chargers, after: G.Chargers, c: string, connector: int, id: Option<int>) {
    forall x, k :: G.TransactionOn(after, x, k) == if x == c && k == connector then id
        else G.TransactionOn(before, x, k)
  }

  ghost predicate Unmoved(before: G.Chargers, after: G.Chargers) {
    forall x, k :: G.TransactionOn(after, x, k) == G.TransactionOn(before, x, k)
  }

  lemma TouchMovesNothing(r: G.Chargers, c: string)
    ensures Unmoved(r, G.Touched(r, c)) && Unmoved(r, G.Offline(r, c))
  {}

  lemma StartMoves(r: G.Chargers, c: string, connector: int, id: int, wh: real)
    ensures Moved(r, G.AfterStart(r, c, connector, id, wh), c, connector, Some(id))
  {}

  lemma MeterMoves(r: G.Chargers, c: string, connector: int, named: Option<int>, wh: real)
    ensures Moved(r, G.AfterMeter(r, c, connector, named, wh), c, connector,
                  if named.Some? then named else G.TransactionOn(r, c, connector))
  {}

  lemma StopMoves(r: G.Chargers, c: string, connector: int, wh: real)
    ensures Moved(r, G.AfterStop(r, c, connector, wh), c, connector, None)
  {}

  lemma StatusMovesNothing(r: G.Chargers, c: string, connector: int, status: string, code: string)
    ensures Unmoved(r, G.AfterStatus(r, c, connector, status, code))
  {}

  /** The connector whose shown transaction a step replaces, and by what. */
  function Writes(s: State, e: Event): Option<(string, int, Option<int>)>
    requires e.TellStart? || e.TellStopped? || e.TellMeter? ==> e.chargerID in s.calls
    requires e.TellStart? ==> s.calls[e.chargerID].Starting?
    requires e.TellMeter? ==> s.calls[e.chargerID].Metering?
    requires e.TellClosed? || e.ReplayStart? || e.ReplayMeter? ==> e.chargerID in s.jobs
  {
    match e
    case TellStart(c) => Some((c, s.calls[c].connector, Some(s.calls[c].id)))
    case TellStopped(c) => Some((c, s.calls[c].connector, None))
    case TellMeter(c) => if s.calls[c].named.Some? then Some((c, s.calls[c].connector, s.calls[c].named)) else None
    case TellClosed(c) => Some((c, s.jobs[c].tx.connectorID, None))
    case ReplayStart(c) => Some((c, s.jobs[c].tx.connectorID, Some(s.jobs[c].tx.transactionID)))
    case ReplayMeter(c) => Some((c, s.jobs[c].tx.connectorID, Some(s.jobs[c].tx.transactionID)))
    case _ => None
  }

  lemma RegistryStep(s: State, e: Event)
    requires StateInv(s) && Enabled(s, e) && !e.Restart?
    ensures var w := Writes(s, e);
            if w.None? then Unmoved(s.chargers, ChargersNext(s, e))
            else Moved(s.chargers, ChargersNext(s, e), w.value.0, w.value.1, w.value.2)
  {
    match e
    case TellStart(c) => StartMoves(s.chargers, c, s.calls[c].connector, s.calls[c].id, s.calls[c].meterStart);
    case TellStopped(c) => StopMoves(s.chargers, c, s.calls[c].connector, s.calls[c].meterStop);
    case TellMeter(c) => MeterMoves(s.chargers, c, s.calls[c].connector, s.calls[c].named, s.calls[c].meterWh);
    case TellClosed(c) => StopMoves(s.chargers, c, s.jobs[c].tx.connectorID, LastKnownMeter(s.jobs[c].tx));
    case ReplayStart(c) => ReplayMoves(s, e);
    case ReplayMeter(c) => ReplayMoves(s, e);
    case StatusNotification(c, k, status, code) => StatusMovesNothing(s.chargers, c, k, status, code);
    case StartListed(c, _) => TouchMovesNothing(s.chargers, c);
    case StopStored(c, _, _, _) => TouchMovesNothing(s.chargers, c);
    case MeterBegins(c, _, _, _) => TouchMovesNothing(s.chargers, c);
    case Connected(c) => TouchMovesNothing(s.chargers, c);
    case Disconnected(c) => TouchMovesNothing(s.chargers, c);
    case _ =>
  }

  lemma ReplayMoves(s: State, e: Event)
    requires StateInv(s) && Enabled(s, e) && (e.ReplayStart? || e.ReplayMeter?)
    ensures var w := Writes(s, e).value;
            Moved(s.chargers, ChargersNext(s, e), w.0, w.1, w.2)
  {
    var c, tx := e.chargerID, s.jobs[e.chargerID].tx;
    assert JobOK(s.table.rows, c, s.jobs[c]);
    StartMoves(s.chargers, c, tx.connectorID, tx.transactionID, tx.meterStart);
    if tx.meterStop.Some? { MeterMoves(s.chargers, c, tx.connectorID, Some(tx.transactionID), tx.meterStop.value); }
  }

  /** Which transactions a step closes or opens. */
  lemma StopFrees(t: Table, op: Op, now: int)
    requires op.Stop? || op.ForceClose?
    ensures forall x, k, i :: S.Busy(Apply(t, op, now).rows, x, k, i)
                              <==> S.Busy(t.rows, x, k, i) && !(i == op.id && x == op.chargerID)
    ensures forall i :: i in t.rows <==> i in Apply(t, op, now).rows
    ensures forall i :: i in t.rows ==> SameIdentity(t.rows[i], Apply(t, op, now).rows[i])
  {}

  lemma OtherFreesNothing(t: Table, op: Op, now: int)
    requires !op.Create? && !op.Stop? && !op.ForceClose?
    ensures forall x, k, i :: S.Busy(Apply(t, op, now).rows, x, k, i) <==> S.Busy(t.rows, x, k, i)
    ensures forall i :: i in t.rows <==> i in Apply(t, op, now).rows
    ensures forall i :: i in t.rows ==> SameIdentity(t.rows[i], Apply(t, op, now).rows[i])
  {}

  lemma CreateOccupies(t: Table, r: Request, uuid: string, draws: Draws, now: int)
    ensures var rows' := Apply(t, Create(r, uuid, draws), now).rows;
            && (forall x, k, i :: S.Busy(rows', x, k, i)
                  <==> S.Busy(t.rows, x, k, i)
                       || (FirstFree(t.rows, draws) == Some(i) && x == r.chargerID && k == r.connectorID))
            && (forall i :: i in t.rows ==> i in rows' && rows'[i] == t.rows[i])
  {
    FirstFreeIsFree(t.rows, draws);
  }

  // ---------------------------------------------------------------- one connector at a time

  /** Outside one connector nothing changes. */
  ghost predicate SameElsewhere(s: State, s': State, c: string, connector: int) {
    && (forall x, k :: x != c || k != connector ==> s'.Shown(x, k) == s.Shown(x, k))
    && (forall x, k, id :: x != c || k != connector ==> (s'.Busy(x, k, id) <==> s.Busy(x, k, id)))
    && (forall x, k, id :: x != c || k != connector ==>
          (s.ClosingInFlight(x, k, id) ==> s'.ClosingInFlight(x, k, id))
              && (s.Opening(x, k, id) ==> s'.Opening(x, k, id)))
  }

  ghost predicate Heard(s: State, s': State) {
    s'.unseen == set id | id in s.unseen && !ShownSomewhere(s'.chargers, id)
  }

  /** An open transaction its own connector does not show is shown nowhere. */
  lemma NotShownElsewhere(s: State, c: string, connector: int, id: int)
    requires Agrees(s) && s.Busy(c, connector, id) && s.Shown(c, connector) != Some(id)
    ensures !ShownSomewhere(s.chargers, id)
  {
    forall y, j ensures G.TransactionOn(s.chargers, y, j) != Some(id) { assert AgreesOn(s, y, j); }
  }

  /** If a step concerns one connector only, agreement afterwards is agreement on that connector. */
  lemma OnlyThisConnector(s: State, s': State, c: string, connector: int)
    requires Agrees(s) && Heard(s, s') && SameElsewhere(s, s', c, connector)
    requires forall id :: s'.ClosingInFlight(c, connector, id) ==> s'.On(c, connector, id)
    ensures Agrees(s') <==> AgreesOn(s', c, connector)
  {
    if AgreesOn(s', c, connector) {
      forall x, k ensures AgreesOn(s', x, k) {
        if x != c || k != connector { OtherConnectorStillAgrees(s, s', c, connector, x, k); }
      }
    }
  }

  lemma OtherConnectorStillAgrees(s: State, s': State, c: string, connector: int, x: string, k: int)
    requires Agrees(s) && Heard(s, s') && SameElsewhere(s, s', c, connector) && AgreesOn(s', c, connector)
    requires x != c || k != connector
    ensures AgreesOn(s', x, k)
  {
    assert AgreesOn(s, x, k);
    if s'.Shown(x, k).None? {
      forall id | s'.Busy(x, k, id) ensures id in s'.unseen || s'.Opening(x, k, id) {
        if !s.Opening(x, k, id) {
          NotShownElsewhere(s, x, k, id);
          forall y, j ensures G.TransactionOn(s'.chargers, y, j) != Some(id) {
            if y != c || j != connector { assert s'.Shown(y, j) == s.Shown(y, j); }
          }
        }
      }
    }
  }

  /** Steps that show and open the same, and take nothing out of flight. */
  lemma NothingMoved(s: State, s': State)
    requires Agrees(s) && Heard(s, s') && Unmoved(s.chargers, s'.chargers)
    requires forall x, k, id :: s'.Busy(x, k, id) <==> s.Busy(x, k, id)
    requires forall x, k, id :: s.ClosingInFlight(x, k, id) ==> s'.ClosingInFlight(x, k, id)
    requires forall x, k, id :: s.Opening(x, k, id) ==> s'.Opening(x, k, id)
    ensures Agrees(s')
  {
    forall x, k ensures AgreesOn(s', x, k) {
      assert AgreesOn(s, x, k);
      forall id | s'.Busy(x, k, id) && s'.Shown(x, k).None? ensures id in s'.unseen || s'.Opening(x, k, id) {
        if !s.Opening(x, k, id) { NotShownElsewhere(s, x, k, id); }
      }
    }
  }

  // ---------------------------------------------------------------- the steps one by one

  predicate Quiet(s: State, e: Event)
    requires e.TellMeter? ==> e.chargerID in s.calls && s.calls[e.chargerID].Metering?
  {
    !e.Restart? && !e.StartDecided? && !e.StopStored? && !e.CloseGhost? && !e.TellStart? && !e.TellStopped?
    && !e.TellClosed? && !e.ReplayStart? && !e.ReplayMeter? && (e.TellMeter? ==> s.calls[e.chargerID].named.None?)
  }

  lemma QuietTable(s: State, e: Event)
    requires StateInv(s) && Enabled(s, e) && Quiet(s, e)
    ensures forall x, k, id :: Next(s, e).Busy(x, k, id) <==> s.Busy(x, k, id)
    ensures forall x, k, id :: Next(s, e).On(x, k, id) <==> s.On(x, k, id)
  {
    if e.OtherWrite? { OtherFreesNothing(s.table, e.op, s.now); }
  }

  lemma QuietJobs(s: State, e: Event)
    requires StateInv(s) && Enabled(s, e) && Quiet(s, e)
    ensures forall x :: InPhase(s, x, Closed) ==> x in JobsNext(s, e) && JobsNext(s, e)[x] == s.jobs[x]
  {}

  lemma QuietCalls(s: State, e: Event)
    requires StateInv(s) && Enabled(s, e) && Quiet(s, e)
    ensures forall x :: x in s.calls && !s.calls[x].Metering? ==>
              x in CallsNext(s, e) && CallsNext(s, e)[x] == s.calls[x]
  {}

  lemma QuietHands(s: State, e: Event)
    requires StateInv(s) && Enabled(s, e) && Quiet(s, e)
    ensures forall x, k, id :: s.ClosingInFlight(x, k, id) ==> Next(s, e).ClosingInFlight(x, k, id)
    ensures forall x, k, id :: s.Opening(x, k, id) ==> Next(s, e).Opening(x, k, id)
  {
    QuietTable(s, e);
    QuietJobs(s, e);
    QuietCalls(s, e);
  }

  /** Steps that show, open and close nothing drop nothing in hand that concerns what is shown. */
  lemma QuietKeepsAgreement(s: State, e: Event)
    requires Good(s) && Enabled(s, e) && Quiet(s, e)
    ensures Agrees(Next(s, e))
  {
    RegistryStep(s, e);
    QuietTable(s, e);
    QuietHands(s, e);
    NothingMoved(s, Next(s, e));
  }

  /** A start that found or created its transaction has it in hand before the registry hears of it. */
  lemma DecisionKeepsAgreement(s: State, e: Event)
    requires Good(s) && Enabled(s, e) && e.StartDecided?
    ensures Agrees(Next(s, e))
  {
    var c, call := e.chargerID, s.starts[e.chargerID];
    var s' := Next(s, e);
    if S.DecisionOf(call).Fresh? && FirstFree(s.table.rows, e.draws).Some? {
      CreatedConnectorAgrees(s, e);
      CreatedElsewhere(s, e);
      OnlyThisConnector(s, s', c, call.connectorID);
    } else {
      NothingMoved(s, s');
    }
  }

  lemma CreatedElsewhere(s: State, e: Event)
    requires Good(s) && Enabled(s, e) && e.StartDecided? && S.DecisionOf(s.starts[e.chargerID]).Fresh?
    requires FirstFree(s.table.rows, e.draws).Some?
    ensures SameElsewhere(s, Next(s, e), e.chargerID, s.starts[e.chargerID].connectorID)
  {
    CreateOccupies(s.table, S.RequestOf(e.chargerID, s.starts[e.chargerID], e.single), e.uuid, e.draws, s.now);
  }

  lemma CreatedConnectorAgrees(s: State, e: Event)
    requires Good(s) && Enabled(s, e) && e.StartDecided? && S.DecisionOf(s.starts[e.chargerID]).Fresh?
    requires FirstFree(s.table.rows, e.draws).Some?
    ensures AgreesOn(Next(s, e), e.chargerID, s.starts[e.chargerID].connectorID)
  {
    var c, call := e.chargerID, s.starts[e.chargerID];
    var s' := Next(s, e);
    CreateOccupies(s.table, S.RequestOf(c, call, e.single), e.uuid, e.draws, s.now);
    FreshMeansFree(s, c);
    assert AgreesOn(s, c, call.connectorID);
    assert s'.calls[c] == Starting(FirstFree(s.table.rows, e.draws).value, call.connectorID, call.meterStart);
    assert s'.Shown(c, call.connectorID) == s.Shown(c, call.connectorID);
    forall id | s'.Busy(c, call.connectorID, id) ensures s'.Opening(c, call.connectorID, id) {
      assert !s.Busy(c, call.connectorID, id);
    }
  }

  /** A start that creates found its connector free, and it still is. */
  lemma FreshMeansFree(s: State, c: string)
    requires StateInv(s) && c in s.starts && S.DecisionOf(s.starts[c]).Fresh?
    ensures s.Free(c, s.starts[c].connectorID)
  {
    var call := s.starts[c];
    S.DecidePicks(call.open, call.connectorID, call.idTag, call.meterStart);
    assert S.CallOK(s.table.rows, c, call);
    forall id ensures !s.Busy(c, call.connectorID, id) {
      assert id in OpenOf(s.table.rows, c) ==> S.InList(call.open, id);
    }
  }

  /** A stop keeps agreement exactly if it does not leave the registry showing what it closed for good. */
  lemma StopAgreesIff(s: State, e: Event)
    requires Good(s) && Enabled(s, e) && e.StopStored?
    ensures Agrees(Next(s, e)) <==> WellBehaved(s, e)
  {
    var s' := Next(s, e);
    RegistryStep(s, e);
    if !Known(s.table.rows, e.chargerID, e.id) {
      ForeignCallChangesNothing(s.table, Stop(e.chargerID, e.id, e.meterStop), s.now);
      NothingMoved(s, s');
    } else {
      var connector := s.table.rows[e.id].connectorID;
      StopFrees(s.table, Stop(e.chargerID, e.id, e.meterStop), s.now);
      OnlyThisConnector(s, s', e.chargerID, connector);
      StopOnConnector(s, e, connector);
    }
  }

  lemma StopOnConnector(s: State, e: Event, connector: int)
    requires Good(s) && Enabled(s, e) && e.StopStored?
    requires Known(s.table.rows, e.chargerID, e.id) && connector == s.table.rows[e.id].connectorID
    ensures AgreesOn(Next(s, e), e.chargerID, connector) <==> WellBehaved(s, e)
  {
    var c, s' := e.chargerID, Next(s, e);
    RegistryStep(s, e);
    StopFrees(s.table, Stop(c, e.id, e.meterStop), s.now);
    assert AgreesOn(s, c, connector);
    assert s'.Shown(c, connector) == s.Shown(c, connector);
    if s.Shown(c, connector).None? {
      forall id | s'.Busy(c, connector, id) ensures id in s'.unseen {
        assert s.Busy(c, connector, id);
        NotShownElsewhere(s, c, connector, id);
      }
    } else {
      var y := s.Shown(c, connector).value;
      if c in s.jobs { assert JobOK(s.table.rows, c, s.jobs[c]); }
      assert s'.On(c, connector, y) <==> s.On(c, connector, y);
      forall id | s'.Busy(c, connector, id) ensures s.Busy(c, connector, id) && (s.Busy(c, connector, y) ==> id == y) {}
    }
  }

  /** After a write that shows a transaction, agreement is a matter of that transaction alone. */
  lemma ShownOnConnector(s: State, s': State, c: string, connector: int, id: int)
    requires Agrees(s) && Heard(s, s') && Moved(s.chargers, s'.chargers, c, connector, Some(id))
    requires SameElsewhere(s, s', c, connector)
    requires forall x :: s'.ClosingInFlight(c, connector, x) ==> s'.On(c, connector, x)
    ensures Agrees(s') <==>
              s'.Busy(c, connector, id) || (s'.ClosingInFlight(c, connector, id) && s'.FreeButOpening(c, connector))
  {
    assert s'.Shown(c, connector) == Some(id);
    assert G.TransactionOn(s'.chargers, c, connector) == Some(id);
    OnlyThisConnector(s, s', c, connector);
  }

  /** A handler's registry write lands in agreement exactly if its transaction is still open, or recovery is
      about to take it away again. */
  lemma HandlerShowsIff(s: State, e: Event)
    requires Good(s) && Enabled(s, e) && (e.TellStart? || (e.TellMeter? && s.calls[e.chargerID].named.Some?))
    ensures Agrees(Next(s, e)) <==> WellBehaved(s, e)
  {
    var s' := Next(s, e);
    var w := Writes(s, e).value;
    RegistryStep(s, e);
    ShownOnConnector(s, s', w.0, w.1, w.2.value);
    assert s'.FreeButOpening(w.0, w.1) <==> s.Free(w.0, w.1) by {
      forall id ensures s'.Busy(w.0, w.1, id) <==> s.Busy(w.0, w.1, id) {}
    }
  }

  /** Recovery's replay: exactly if the transaction is still open, or a stop is about to take it away again. */
  lemma ReplayAgreesIff(s: State, e: Event)
    requires Good(s) && Enabled(s, e) && (e.ReplayStart? || e.ReplayMeter?)
    ensures Agrees(Next(s, e)) <==> WellBehaved(s, e)
  {
    var s' := Next(s, e);
    var w := Writes(s, e).value;
    RegistryStep(s, e);
    assert JobOK(s.table.rows, e.chargerID, s.jobs[e.chargerID]);
    ShownOnConnector(s, s', w.0, w.1, w.2.value);
    assert s'.StopClosing(w.0, w.1, w.2.value) ==> (s'.FreeButOpening(w.0, w.1) <==> s.Free(w.0, w.1)) by {
      forall id ensures s'.Busy(w.0, w.1, id) <==> s.Busy(w.0, w.1, id) {}
    }
  }

  /** A write that empties a connector, by a handler or by recovery: exactly if the open transaction it hides, if
      any, is about to be shown again. */
  lemma EmptyingAgreesIff(s: State, e: Event)
    requires Good(s) && Enabled(s, e) && (e.TellStopped? || e.TellClosed?)
    ensures Agrees(Next(s, e)) <==> WellBehaved(s, e)
  {
    var connector := Writes(s, e).value.1;
    EmptiedElsewhere(s, e, connector);
    OnlyThisConnector(s, Next(s, e), e.chargerID, connector);
    EmptiedConnector(s, e, connector);
  }

  lemma EmptiedElsewhere(s: State, e: Event, connector: int)
    requires Good(s) && Enabled(s, e) && (e.TellStopped? || e.TellClosed?) && connector == Writes(s, e).value.1
    ensures SameElsewhere(s, Next(s, e), e.chargerID, connector)
  {
    var c := e.chargerID;
    RegistryStep(s, e);
    if e.TellClosed? {
      assert JobOK(s.table.rows, c, s.jobs[c]);
    } else {
      assert CallOK(s.table.rows, c, s.calls[c]);
    }
  }

  lemma EmptiedConnector(s: State, e: Event, connector: int)
    requires Good(s) && Enabled(s, e) && (e.TellStopped? || e.TellClosed?) && connector == Writes(s, e).value.1
    ensures AgreesOn(Next(s, e), e.chargerID, connector) <==> WellBehaved(s, e)
  {
    var c, s' := e.chargerID, Next(s, e);
    RegistryStep(s, e);
    assert AgreesOn(s, c, connector);
    assert s'.Shown(c, connector) == None;
    forall id ensures s'.Busy(c, connector, id) <==> s.Busy(c, connector, id) {}
    forall id ensures s'.Opening(c, connector, id) <==> s.Opening(c, connector, id) {}
    forall id | s.Busy(c, connector, id) && s.Shown(c, connector) != Some(id) && !s.Opening(c, connector, id)
      ensures id in s'.unseen
    {
      NotShownElsewhere(s, c, connector, id);
      forall y, j ensures G.TransactionOn(s'.chargers, y, j) != Some(id) {}
    }
  }

  /** A force-close only touches the store: what it closes is in flight until the registry is told. */
  lemma CloseKeepsAgreement(s: State, e: Event)
    requires Good(s) && Enabled(s, e) && e.CloseGhost?
    ensures Agrees(Next(s, e))
  {
    var c, s' := e.chargerID, Next(s, e);
    var tx := s.jobs[c].tx;
    assert JobOK(s.table.rows, c, s.jobs[c]);
    if !e.storeOK {
      NothingMoved(s, s');
    } else {
      StopFrees(s.table, ForceClose(c, tx.transactionID, LastKnownMeter(tx)), s.now);
      OnlyThisConnector(s, s', c, tx.connectorID);
      ClosedConnectorAgrees(s, e);
    }
  }

  lemma ClosedConnectorAgrees(s: State, e: Event)
    requires Good(s) && Enabled(s, e) && e.CloseGhost? && e.storeOK
    ensures AgreesOn(Next(s, e), e.chargerID, s.jobs[e.chargerID].tx.connectorID)
  {
    var c, s' := e.chargerID, Next(s, e);
    var tx := s.jobs[c].tx;
    var connector := tx.connectorID;
    assert JobOK(s.table.rows, c, s.jobs[c]);
    StopFrees(s.table, ForceClose(c, tx.transactionID, LastKnownMeter(tx)), s.now);
    assert AgreesOn(s, c, connector);
    assert s'.Shown(c, connector) == s.Shown(c, connector);
    if s.Shown(c, connector).None? {
      forall id | s'.Busy(c, connector, id) ensures id in s'.unseen || s'.Opening(c, connector, id) {
        assert s.Busy(c, connector, id);
        NotShownElsewhere(s, c, connector, id);
      }
    } else {
      var y := s.Shown(c, connector).value;
      assert s'.On(c, connector, y) <==> s.On(c, connector, y);
      forall id | s'.Busy(c, connector, id) ensures s.Busy(c, connector, id) && (s.Busy(c, connector, y) ==> id == y) {}
    }
  }

  /** One step from agreement: it is kept exactly by the well-behaved steps. */
  lemma AgreementKeptIff(s: State, e: Event)
    requires Good(s) && Enabled(s, e)
    ensures StateInv(Next(s, e))
    ensures Agrees(Next(s, e)) <==> WellBehaved(s, e)
  {
    StepKeepsStateInv(s, e);
    if e.StartDecided? {
      DecisionKeepsAgreement(s, e);
    } else if e.StopStored? {
      StopAgreesIff(s, e);
    } else if e.TellStart? || (e.TellMeter? && s.calls[e.chargerID].named.Some?) {
      HandlerShowsIff(s, e);
    } else if e.TellStopped? || e.TellClosed? {
      EmptyingAgreesIff(s, e);
    } else if e.ReplayStart? || e.ReplayMeter? {
      ReplayAgreesIff(s, e);
    } else if e.CloseGhost? {
      CloseKeepsAgreement(s, e);
    } else if !e.Restart? {
      QuietKeepsAgreement(s, e);
    }
  }

  // ---------------------------------------------------------------- runs

  ghost predicate ValidRun(s: State, es: seq<Event>)
    decreases |es|
  {
    es == [] || (Enabled(s, es[0]) && WellBehaved(s, es[0]) && ValidRun(Next(s, es[0]), es[1..]))
  }

  /** Any run of enabled events, well behaved or not. */
  ghost predicate AnyRun(s: State, es: seq<Event>)
    decreases |es|
  {
    es == [] || (Enabled(s, es[0]) && AnyRun(Next(s, es[0]), es[1..]))
  }

  lemma {:induction false} ValidRunsAreRuns(s: State, es: seq<Event>)
    requires ValidRun(s, es)
    ensures AnyRun(s, es)
    decreases |es|
  {
    if es != [] { ValidRunsAreRuns(Next(s, es[0]), es[1..]); }
  }

  ghost function Run(s: State, es: seq<Event>): State
    requires AnyRun(s, es)
    decreases |es|
  {
    if es == [] then s else Run(Next(s, es[0]), es[1..])
  }

  const INIT := State(Table(1, map[]), map[], {}, map[], map[], map[], 0)

  lemma {:induction false} RunKeepsAgreement(s: State, es: seq<Event>)
    requires Good(s) && ValidRun(s, es)
    ensures AnyRun(s, es) && Good(Run(s, es))
    decreases |es|
  {
    if es != [] {
      AgreementKeptIff(s, es[0]);
      RunKeepsAgreement(Next(s, es[0]), es[1..]);
    }
  }

  lemma InitIsGood()
    ensures Good(INIT)
  {}

  /** Over every well-behaved run, a connector's registry transaction is exactly the store's open one, or one
      whose close is about to be told while nothing else is open but what is about to be shown; it is absent
      only when nothing is open but what is about to be shown or was unheard of since a restart. */
  lemma RegistryIsTheStore(es: seq<Event>, c: string, connector: int)
    requires ValidRun(INIT, es)
    ensures AnyRun(INIT, es)
    ensures var s := Run(INIT, es);
            match s.Shown(c, connector)
            case Some(id) =>
              || (forall x :: s.Busy(c, connector, x) <==> x == id)
              || (s.ClosingInFlight(c, connector, id) && s.FreeButOpening(c, connector))
            case None => forall x :: s.Busy(c, connector, x) ==> x in s.unseen || s.Opening(c, connector, x)
  {
    InitIsGood();
    RunKeepsAgreement(INIT, es);
    assert AgreesOn(Run(INIT, es), c, connector);
  }

  /** At rest there is nothing in between: the registry shows exactly the open transaction, or none is open but
      what it has not heard of since a restart. */
  lemma AtRestTheRegistryIsTheStore(es: seq<Event>, c: string, connector: int)
    requires ValidRun(INIT, es)
    ensures AnyRun(INIT, es)
    ensures var s := Run(INIT, es);
            c !in s.calls && c !in s.jobs ==>
              match s.Shown(c, connector)
              case Some(id) => forall x :: s.Busy(c, connector, x) <==> x == id
              case None => forall x :: s.Busy(c, connector, x) ==> x in s.unseen
  {
    RegistryIsTheStore(es, c, connector);
  }

  /** Without a restart nothing is unseen. */
  lemma {:induction false} NothingUnseenWithoutRestart(s: State, es: seq<Event>)
    requires AnyRun(s, es) && s.unseen == {} && forall i :: 0 <= i < |es| ==> !es[i].Restart?
    ensures Run(s, es).unseen == {}
    decreases |es|
  {
    if es != [] { NothingUnseenWithoutRestart(Next(s, es[0]), es[1..]); }
  }

  /** Replaying a start makes the connector show the transaction again, rightly so exactly if it is still open or
      a stop of it is about to be told. */
  lemma HydrationRestoresIff(s: State, c: string)
    requires Good(s) && Enabled(s, ReplayStart(c))
    ensures var s' := Next(s, ReplayStart(c));
            var tx := s.jobs[c].tx;
            && s'.Shown(c, tx.connectorID) == Some(tx.transactionID)
            && tx.transactionID !in s'.unseen && s'.unseen <= s.unseen
            && (Agrees(s') <==> RecoveryMayShow(s, c, tx.connectorID, tx.transactionID))
  {
    ReplayAgreesIff(s, ReplayStart(c));
    RegistryStep(s, ReplayStart(c));
    var s' := Next(s, ReplayStart(c));
    assert G.TransactionOn(s'.chargers, c, s.jobs[c].tx.connectorID) == Some(s.jobs[c].tx.transactionID);
  }

  // ---------------------------------------------------------------- handlers that are not interrupted

  /** The three steps of a StartTransaction with nothing in between are the handler as a whole. */
  lemma UninterruptedStart(s: State, sys: System, c: string, req: StartRequest, open: seq<Transaction>,
                           single: bool, uuid: string, draws: Draws, hookOK: bool)
    requires sys.table == s.table && sys.chargers == s.chargers && StateInv(s)
    requires Enabled(s, StartListed(c, S.Call(req.connectorID, req.idTag, req.meterStart, open)))
    ensures var listed := Next(s, StartListed(c, S.Call(req.connectorID, req.idTag, req.meterStart, open)));
            var decided := Next(listed, StartDecided(c, single, uuid, draws));
            var told := if c in decided.calls then Next(decided, TellStart(c)) else decided;
            var whole := HandleStart(sys, c, req, open, single, uuid, draws, hookOK, s.now).0;
            told.table == whole.table && told.chargers == whole.chargers && told.Idle(c)
  {}

  /** So are the two of a StopTransaction ... */
  lemma UninterruptedStop(s: State, sys: System, c: string, id: int, meterStop: real, hookOK: bool)
    requires sys.table == s.table && sys.chargers == s.chargers && s.Idle(c)
    requires forall x :: x in s.table.rows ==> s.table.rows[x].transactionID == x
    ensures var stopped := Next(s, StopStored(c, id, meterStop, hookOK));
            var told := if c in stopped.calls then Next(stopped, TellStopped(c)) else stopped;
            var whole := HandleStop(sys, c, id, meterStop, hookOK, s.now).0;
            told.table == whole.table && told.chargers == whole.chargers && told.Idle(c)
  {
    if Known(s.table.rows, c, id) {
      OwnStop(s, sys, c, id, meterStop, hookOK);
    } else {
      ForeignStop(s, c, id, meterStop, hookOK);
    }
  }

  lemma ForeignStop(s: State, c: string, id: int, meterStop: real, hookOK: bool)
    requires s.Idle(c) && !Known(s.table.rows, c, id)
    ensures var stopped := Next(s, StopStored(c, id, meterStop, hookOK));
            stopped.table == s.table && stopped.chargers == G.Touched(s.chargers, c) && stopped.calls == s.calls
            && stopped.Idle(c)
  {
    ForeignCallChangesNothing(s.table, Stop(c, id, meterStop), s.now);
  }

  lemma OwnStop(s: State, sys: System, c: string, id: int, meterStop: real, hookOK: bool)
    requires sys.table == s.table && sys.chargers == s.chargers && s.Idle(c)
    requires Known(s.table.rows, c, id) && s.table.rows[id].transactionID == id
    ensures var stopped := Next(s, StopStored(c, id, meterStop, hookOK));
            var told := if c in stopped.calls then Next(stopped, TellStopped(c)) else stopped;
            var whole := HandleStop(sys, c, id, meterStop, hookOK, s.now).0;
            told.table == whole.table && told.chargers == whole.chargers && told.Idle(c)
  {}

  /** ... and those of a MeterValues, with the store write and the limit check it owes. */
  lemma UninterruptedMeter(s: State, sys: System, c: string, connector: int, named: Option<int>,
                           extracted: Option<real>)
    requires sys.table == s.table && sys.chargers == s.chargers && s.Idle(c)
    ensures var begun := Next(s, MeterBegins(c, connector, named, extracted));
            var whole := HandleMeter(sys, c, connector, named, extracted, s.now);
            if extracted.None? then begun.table == whole.table && begun.chargers == whole.chargers
            else
              var told := Next(begun, TellMeter(c));
              var id := begun.calls[c].named;
              told.chargers == whole.chargers && told.Idle(c)
              && whole.table == if id.None? then told.table
                   else MeteredAndChecked(told.table, c, id.value, extracted.value, s.now)
  {
    TouchMovesNothing(s.chargers, c);
  }
}
