/** When nothing is overtaken: if recovery and the handlers of one charger do not overlap, the charger's messages
    are all that has to behave, and registry and store agree throughout. */
module Undisturbed {
  import opened Rows
  import opened Agreement
  import S = Starts

  /** No call of a charger begins while recovery works on one of its transactions, nor the other way round. */
  predicate Apart(s: State, e: Event) {
    && (e.StartListed? || e.StopStored? || e.MeterBegins? ==> e.chargerID !in s.jobs)
    && (e.Refresh? ==> s.Idle(e.chargerID))
  }

  /** The registry shows an open transaction on the connector. */
  ghost predicate ShowsOpen(s: State, c: string, connector: int) {
    s.Shown(c, connector).Some? && s.Busy(c, connector, s.Shown(c, connector).value)
  }

  /** A meter value names the connector's open transaction or none; a stop of the transaction the registry shows
      gets its callback out; a repeated stop does not meet a connector that shows a newer transaction. */
  ghost predicate MessageBehaves(s: State, e: Event) {
    && (e.MeterBegins? && e.extracted.Some? && e.named.Some? && e.named.value > 0 ==>
          s.Busy(e.chargerID, e.connectorID, e.named.value))
    && (e.StopStored? ==> StopBehaves(s, e.chargerID, e.id, e.meterStop, e.hookOK))
    && (e.StopStored? && Known(s.table.rows, e.chargerID, e.id) && !s.table.rows[e.id].Open()
        && CallbackGoesOut(s, e.id, e.meterStop, e.hookOK) ==>
          !ShowsOpen(s, e.chargerID, s.table.rows[e.id].connectorID))
  }

  ghost predicate Undisturbed(s: State, e: Event) { Enabled(s, e) && Apart(s, e) && MessageBehaves(s, e) }

  // ---------------------------------------------------------------- what stays true of work in hand

  ghost predicate CallFresh(s: State, c: string, call: Call) {
    match call
    case Starting(id, connector, _) => s.Busy(c, connector, id)
    case Stopping(_, connector, _) => !ShowsOpen(s, c, connector)
    case Metering(named, connector, _) => named.Some? ==> s.Busy(c, connector, named.value)
  }

  ghost predicate JobFresh(s: State, c: string, job: Job) {
    if job.phase.Closed? then s.Free(c, job.tx.connectorID) else s.Busy(c, job.tx.connectorID, job.tx.transactionID)
  }

  ghost predicate StartFresh(s: State, open: seq<Transaction>) {
    forall i :: 0 <= i < |open| ==> open[i].transactionID in s.table.rows && s.table.rows[open[i].transactionID].Open()
  }

  /** Of one charger: recovery works alone, and what anyone has in hand still holds. */
  ghost predicate FreshFor(s: State, c: string) {
    && (c in s.jobs ==> s.Idle(c) && JobFresh(s, c, s.jobs[c]))
    && (c in s.calls ==> CallFresh(s, c, s.calls[c]))
    && (c in s.starts ==> StartFresh(s, s.starts[c].open))
  }

  ghost predicate AllFresh(s: State) { forall c :: FreshFor(s, c) }

  /** Then every step that is not a misbehaving message is well behaved. */
  lemma FreshStepsBehave(s: State, e: Event)
    requires Good(s) && AllFresh(s) && Undisturbed(s, e)
    ensures WellBehaved(s, e)
  {
    if e.TellStart? || e.TellMeter? || e.TellStopped? || e.TellClosed? || e.ReplayStart? || e.ReplayMeter? {
      assert FreshFor(s, e.chargerID);
    }
  }

  // ---------------------------------------------------------------- steps of others

  /** The event is a step of one of this charger's calls or of its recovery. */
  predicate Concerns(e: Event, c: string) {
    match e
    case OtherWrite(_) => false
    case Restart => false
    case Wait(_) => false
    case StatusNotification(_, _, _, _) => false
    case Connected(_) => false
    case Disconnected(_) => false
    case _ => e.chargerID == c
  }

  ghost predicate SameInHand(s: State, s': State, c: string) {
    && (c in s'.jobs <==> c in s.jobs) && (c in s.jobs ==> s'.jobs[c] == s.jobs[c])
    && (c in s'.calls <==> c in s.calls) && (c in s.calls ==> s'.calls[c] == s.calls[c])
    && (c in s'.starts <==> c in s.starts) && (c in s.starts ==> s'.starts[c] == s.starts[c])
  }

  ghost predicate SameTransactions(s: State, s': State, c: string) {
    && (forall k, id :: s'.Busy(c, k, id) <==> s.Busy(c, k, id))
    && (forall k :: s'.Shown(c, k) == s.Shown(c, k))
  }

  lemma OthersLeaveHands(s: State, e: Event, c: string)
    requires Enabled(s, e) && !Concerns(e, c) && !e.Restart?
    ensures SameInHand(s, Next(s, e), c)
  {}

  lemma OthersLeaveBusy(s: State, e: Event, c: string)
    requires StateInv(s) && Enabled(s, e) && !Concerns(e, c) && !e.Restart?
    ensures forall k, id :: S.Busy(TableNext(s, e).rows, c, k, id) <==> S.Busy(s.table.rows, c, k, id)
  {
    var op := OpOf(s, e);
    if op.Some? {
      if op.value.Create? {
        CreateOccupies(s.table, op.value.request, op.value.uuid, op.value.draws, s.now);
      } else if op.value.Stop? || op.value.ForceClose? {
        StopFrees(s.table, op.value, s.now);
      } else {
        OtherFreesNothing(s.table, op.value, s.now);
      }
    }
  }

  lemma OthersLeaveTransactions(s: State, e: Event, c: string)
    requires StateInv(s) && Enabled(s, e) && !Concerns(e, c) && !e.Restart?
    ensures SameTransactions(s, Next(s, e), c)
  {
    RegistryStep(s, e);
    OthersLeaveBusy(s, e, c);
  }

  lemma OthersLeaveFresh(s: State, e: Event, c: string)
    requires Good(s) && FreshFor(s, c) && Enabled(s, e) && !Concerns(e, c) && !e.Restart?
    ensures FreshFor(Next(s, e), c)
  {
    var s' := Next(s, e);
    OthersLeaveHands(s, e, c);
    OthersLeaveTransactions(s, e, c);
    if c in s.starts {
      var open := s.starts[c].open;
      assert S.CallOK(s.table.rows, c, s.starts[c]);
      TableStep(s, e);
      forall i | 0 <= i < |open| ensures s'.table.rows[open[i].transactionID].Open() {
        var tx := s.table.rows[open[i].transactionID];
        assert s.Busy(c, tx.connectorID, open[i].transactionID);
        assert s'.Busy(c, tx.connectorID, open[i].transactionID);
      }
    }
  }

  // ---------------------------------------------------------------- the charger's own steps

  lemma StartStaysFresh(s: State, e: Event)
    requires (e.StartListed? || e.StartDecided? || e.TellStart?)
    requires Good(s) && FreshFor(s, e.chargerID) && Undisturbed(s, e)
    ensures FreshFor(Next(s, e), e.chargerID)
  {
    if e.StartDecided? && StartedWith(s, e.chargerID, e.draws).Some? { DecidedIsOpen(s, e); }
  }

  /** The transaction a start decides on is open: it was listed so, or is new. */
  lemma DecidedIsOpen(s: State, e: Event)
    requires Enabled(s, e) && e.StartDecided? && Good(s) && FreshFor(s, e.chargerID)
    requires StartedWith(s, e.chargerID, e.draws).Some?
    ensures Next(s, e).Busy(e.chargerID, s.starts[e.chargerID].connectorID, StartedWith(s, e.chargerID, e.draws).value)
  {
    var call := s.starts[e.chargerID];
    StartedIsOn(s, e);
    S.DecidePicks(call.open, call.connectorID, call.idTag, call.meterStart);
    FirstFreeIsFree(s.table.rows, e.draws);
  }

  lemma StopStaysFresh(s: State, e: Event)
    requires (e.StopStored? || e.TellStopped?)
    requires Good(s) && FreshFor(s, e.chargerID) && Undisturbed(s, e)
    ensures FreshFor(Next(s, e), e.chargerID)
  {
    if e.StopStored? {
      RegistryStep(s, e);
      StopFrees(s.table, Op.Stop(e.chargerID, e.id, e.meterStop), s.now);
    }
  }

  lemma MeterStaysFresh(s: State, e: Event)
    requires (e.MeterBegins? || e.TellMeter?)
    requires Good(s) && FreshFor(s, e.chargerID) && Undisturbed(s, e)
    ensures FreshFor(Next(s, e), e.chargerID)
  {
    if e.MeterBegins? { assert AgreesOn(s, e.chargerID, e.connectorID); }
  }

  predicate Recovers(e: Event) {
    e.Refresh? || e.Judge? || e.CloseGhost? || e.TellClosed? || e.ReplayStart? || e.ReplayMeter?
  }

  lemma RecoveryStaysFresh(s: State, e: Event)
    requires Recovers(e) && Good(s) && FreshFor(s, e.chargerID) && Undisturbed(s, e)
    ensures FreshFor(Next(s, e), e.chargerID)
  {
    if e.CloseGhost? {
      var c, tx := e.chargerID, s.jobs[e.chargerID].tx;
      assert JobOK(s.table.rows, c, s.jobs[c]);
      StopFrees(s.table, ForceClose(c, tx.transactionID, LastKnownMeter(tx)), s.now);
      assert s.Busy(c, tx.connectorID, tx.transactionID);
    }
  }

  lemma StepStaysFresh(s: State, e: Event)
    requires Good(s) && AllFresh(s) && Undisturbed(s, e)
    ensures AllFresh(Next(s, e))
  {
    forall c ensures FreshFor(Next(s, e), c) {
      assert FreshFor(s, c);
      if !e.Restart? {
        if !Concerns(e, c) {
          OthersLeaveFresh(s, e, c);
        } else if e.StartListed? || e.StartDecided? || e.TellStart? {
          StartStaysFresh(s, e);
        } else if e.StopStored? || e.TellStopped? {
          StopStaysFresh(s, e);
        } else if e.MeterBegins? || e.TellMeter? {
          MeterStaysFresh(s, e);
        } else {
          RecoveryStaysFresh(s, e);
        }
      }
    }
  }

  // ---------------------------------------------------------------- runs

  ghost predicate UndisturbedRun(s: State, es: seq<Event>)
    decreases |es|
  {
    es == [] || (Undisturbed(s, es[0]) && UndisturbedRun(Next(s, es[0]), es[1..]))
  }

  lemma {:induction false} UndisturbedRunsAreValid(s: State, es: seq<Event>)
    requires Good(s) && AllFresh(s) && UndisturbedRun(s, es)
    ensures ValidRun(s, es)
    decreases |es|
  {
    if es != [] {
      FreshStepsBehave(s, es[0]);
      AgreementKeptIff(s, es[0]);
      StepStaysFresh(s, es[0]);
      UndisturbedRunsAreValid(Next(s, es[0]), es[1..]);
    }
  }

  /** From the start: if calls and recovery of one charger do not overlap and its messages behave, registry and
      store agree on every connector after every run. */
  lemma UndisturbedRunsAgree(es: seq<Event>)
    requires UndisturbedRun(INIT, es)
    ensures AnyRun(INIT, es) && Agrees(Run(INIT, es))
  {
    InitIsGood();
    UndisturbedRunsAreValid(INIT, es);
    RunKeepsAgreement(INIT, es);
  }
}
