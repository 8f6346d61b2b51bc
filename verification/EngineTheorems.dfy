/** What the engine guarantees in every reachable state, whatever order its goroutines run in. */
module EngineTheorems {
  import opened Wrappers
  import opened Rows
  import opened Engine
  import O = Outbox
  import R = Reconcile
  import S = Starts
  import L = LimitStop
  import B = Recovery
  import H = Streams

  /** A reachable state: the initial one after some events. */
  ghost function At(es: seq<Event>): Engine { Run(INIT, es) }

  lemma Reachable(es: seq<Event>)
    ensures Inv(At(es))
  {
    InitInv();
    RunKeepsInv(INIT, es);
  }

  lemma RunConcat(s: Engine, es: seq<Event>, more: seq<Event>)
    ensures Run(s, es + more) == Run(Run(s, es), more)
    decreases |more|
  {
    if more == [] {
      assert es + more == es;
    } else {
      assert (es + more)[..|es + more| - 1] == es + more[..|more| - 1];
      RunConcat(s, es, more[..|more| - 1]);
    }
  }

  // ---------------------------------------------------------------- transactions

  /** At most one transaction is open per connector, although listing and creating are separate steps. */
  lemma OneOpenPerConnector(es: seq<Event>, i: int, j: int)
    ensures var rows := At(es).table.rows;
            (i in rows && j in rows && rows[i].Open() && rows[j].Open()
             && rows[i].On(rows[j].chargerID, rows[j].connectorID)) ==> i == j
  {
    Reachable(es);
  }

  /** No transaction is ever lost, renumbered or reopened, and its stop time is set once. */
  lemma HistoryIsKept(es: seq<Event>, more: seq<Event>)
    ensures Extends(At(es).table.rows, At(es + more).table.rows)
  {
    Reachable(es);
    RunConcat(INIT, es, more);
    RunKeepsInv(At(es), more);
  }

  /** Nothing in `mid` decides this charger's outstanding StartTransaction call, or kills it. */
  predicate LeavesCall(mid: seq<Event>, c: string) {
    forall j :: 0 <= j < |mid| ==> !mid[j].Restart? && !(mid[j].StartDecided? && mid[j].chargerID == c)
  }

  lemma {:induction false} CallStays(s: Engine, mid: seq<Event>, c: string)
    requires c in s.calls && LeavesCall(mid, c)
    ensures c in Run(s, mid).calls && Run(s, mid).calls[c] == s.calls[c]
  {
    if mid != [] { CallStays(s, mid[..|mid| - 1], c); }
  }

  /** The charger's call listed its open transactions in a reachable state, and whatever happened since. */
  ghost predicate Listed(es: seq<Event>, c: string, call: S.Call, mid: seq<Event>) {
    Enabled(At(es), StartListed(c, call)) && LeavesCall(mid, c)
  }

  /** The state in which the call decides. */
  ghost function Late(es: seq<Event>, c: string, call: S.Call, mid: seq<Event>): Engine {
    Run(Step(At(es), StartListed(c, call)), mid)
  }

  lemma LateInv(es: seq<Event>, c: string, call: S.Call, mid: seq<Event>)
    requires Listed(es, c, call, mid)
    ensures var late := Late(es, c, call, mid);
            Inv(late) && c in late.calls && late.calls[c] == call && Extends(At(es).table.rows, late.table.rows)
  {
    Reachable(es);
    var listed := Step(At(es), StartListed(c, call));
    StepKeepsInv(At(es), StartListed(c, call));
    RunKeepsInv(listed, mid);
    CallStays(listed, mid, c);
  }

  /** The decision itself, from whatever state. */
  lemma Decided(s: Engine, c: string, single: bool, uuid: string, draws: Draws)
    requires c in s.calls
    ensures var e := StartDecided(c, single, uuid, draws);
            var decision := S.DecisionOf(s.calls[c]);
            && Step(s, e).outbox == s.outbox
            && (!decision.Fresh? ==> Step(s, e).table == s.table)
            && (decision.Fresh? ==> Step(s, e).table == Apply(s.table,
                  Create(S.RequestOf(c, s.calls[c], single), uuid, draws), s.now))
            && (StartedID(s, c, draws).None? ==> Step(s, e).owed == s.owed)
            && (StartedID(s, c, draws).Some? ==>
                  Step(s, e).owed
                  == s.owed[Handler(c) := Owed(O.StartKind, StartedRow(s, e))])
  {}

  /** A StartTransaction on a connector that was busy when its call listed: whatever happens before the call
      decides, it changes no row. A repeated start goes on with the transaction that was open; a different one
      goes on with nothing. */
  lemma StartOnBusyConnector(es: seq<Event>, c: string, call: S.Call, mid: seq<Event>, id: int,
                             single: bool, uuid: string, draws: Draws)
    requires Listed(es, c, call, mid) && S.Busy(At(es).table.rows, c, call.connectorID, id)
    ensures c in Late(es, c, call, mid).calls
    ensures var late := Late(es, c, call, mid);
            var decided := Step(late, StartDecided(c, single, uuid, draws));
            var row := At(es).table.rows[id];
            && decided.table == late.table && decided.outbox == late.outbox
            && StartedID(late, c, draws) == (if S.SameStart(row, call.idTag, call.meterStart) then Some(id) else None)
            && (if S.SameStart(row, call.idTag, call.meterStart)
                then Handler(c) in decided.owed && decided.owed[Handler(c)] == Owed(O.StartKind, row)
                else decided.owed == late.owed)
  {
    LateInv(es, c, call, mid);
    Reachable(es);
    S.DecisionIndependentOfOrder(call.open, At(es).table.rows, c, call.connectorID, call.idTag, call.meterStart, id);
    Decided(Late(es, c, call, mid), c, single, uuid, draws);
  }

  lemma FreeStartIsFresh(s: Engine, c: string, call: S.Call)
    requires Inv(s) && Enabled(s, StartListed(c, call))
    requires forall x :: !S.Busy(s.table.rows, c, call.connectorID, x)
    ensures S.DecisionOf(call).Fresh?
  {
    S.DecisionIndependentOfOrder(call.open, s.table.rows, c, call.connectorID, call.idTag, call.meterStart, 0);
  }

  /** A fresh decision opens a transaction, if the generator offers an ID. */
  lemma FreshDecision(s: Engine, c: string, single: bool, uuid: string, draws: Draws)
    requires c in s.calls && S.DecisionOf(s.calls[c]).Fresh?
    ensures var decided := Step(s, StartDecided(c, single, uuid, draws));
            match StartedID(s, c, draws)
            case Some(id) =>
              && OpenedOn(s.table, decided.table, c, s.calls[c].connectorID, id)
              && Handler(c) in decided.owed && decided.owed[Handler(c)] == Owed(O.StartKind, decided.table.rows[id])
            case None =>
              decided.table == s.table && forall k :: 0 <= k < |draws| ==> draws[k] in s.table.rows
  {
    CreateOpensOne(s.table, S.RequestOf(c, s.calls[c], single), uuid, draws, s.now);
    Decided(s, c, single, uuid, draws);
  }

  /** On a connector that was free when its call listed: whatever happens before the call decides, it opens one
      new transaction with an ID unused at that moment and owes its callback, if the generator offers one. */
  lemma StartOnFreeConnector(es: seq<Event>, c: string, call: S.Call, mid: seq<Event>,
                             single: bool, uuid: string, draws: Draws)
    requires Listed(es, c, call, mid)
    requires forall x :: !S.Busy(At(es).table.rows, c, call.connectorID, x)
    ensures c in Late(es, c, call, mid).calls
    ensures var late := Late(es, c, call, mid);
            var decided := Step(late, StartDecided(c, single, uuid, draws));
            match StartedID(late, c, draws)
            case Some(id) =>
              && OpenedOn(late.table, decided.table, c, call.connectorID, id)
              && Handler(c) in decided.owed && decided.owed[Handler(c)] == Owed(O.StartKind, decided.table.rows[id])
            case None =>
              decided.table == late.table && forall k :: 0 <= k < |draws| ==> draws[k] in late.table.rows
  {
    LateInv(es, c, call, mid);
    Reachable(es);
    FreeStartIsFresh(At(es), c, call);
    FreshDecision(Late(es, c, call, mid), c, single, uuid, draws);
  }

  /** Exactly one row more: open, on this connector, with an unused ID in range. */
  ghost predicate OpenedOn(before: Table, after: Table, c: string, connector: int, id: int) {
    && id !in before.rows && 1 <= id <= MAX_TRANSACTION_ID
    && after.rows.Keys == before.rows.Keys + {id}
    && (forall x :: x in before.rows ==> after.rows[x] == before.rows[x])
    && S.Busy(after.rows, c, connector, id)
  }

  lemma CreateOpensOne(t: Table, r: Request, uuid: string, draws: Draws, now: int)
    ensures match FirstFree(t.rows, draws)
            case Some(id) => OpenedOn(t, Apply(t, Create(r, uuid, draws), now), r.chargerID, r.connectorID, id)
            case None => Apply(t, Create(r, uuid, draws), now) == t && forall k :: 0 <= k < |draws| ==>
                draws[k] in t.rows
  {
    FirstFreeIsFree(t.rows, draws);
  }

  /** Nothing in `more` pays what this owner owes, or kills it. */
  predicate LeavesOwed(more: seq<Event>, owner: Owner) {
    forall j :: 0 <= j < |more| ==> !more[j].Restart? && !(more[j].Enqueue? && more[j].owner == owner)
  }

  lemma OwedStaysStep(s: Engine, e: Event, owner: Owner)
    requires owner in s.owed && !e.Restart? && !(e.Enqueue? && e.owner == owner)
    requires owner.Handler? ==> owner.chargerID !in s.calls
    ensures owner in Step(s, e).owed && Step(s, e).owed[owner] == s.owed[owner]
    ensures owner.Handler? ==> owner.chargerID !in Step(s, e).calls
  {}

  lemma {:induction false} OwedStays(s: Engine, more: seq<Event>, owner: Owner)
    requires owner in s.owed && LeavesOwed(more, owner)
    requires owner.Handler? ==> owner.chargerID !in s.calls
    ensures owner in Run(s, more).owed && Run(s, more).owed[owner] == s.owed[owner]
    ensures owner.Handler? ==> owner.chargerID !in Run(s, more).calls
  {
    if more != [] {
      OwedStays(s, more[..|more| - 1], owner);
      OwedStaysStep(Run(s, more[..|more| - 1]), more[|more| - 1], owner);
    }
  }

  lemma Paid(s: Engine, owner: Owner, hookOK: bool)
    requires OutboxOK(s.table.rows, s.outbox) && owner in s.owed
    ensures var w := s.owed[owner];
            var key := O.Key(w.kind, w.tx.transactionID);
            var after := Step(s, Enqueue(owner, hookOK)).outbox;
            && (O.HasKey(after.entries, key) <==>
                  O.HasKey(s.outbox.entries, key)
                  || (hookOK && R.Acceptable(w.kind, w.tx)))
            && (O.HasKey(s.outbox.entries, key) ==> after == s.outbox)
  {
    var w := s.owed[owner];
    O.EnqueueOnce(s.outbox, O.Key(w.kind, w.tx.transactionID), s.now);
  }

  /** Paying, however late: afterwards the callback is there exactly if it was, or if the outbox takes it; and
      if it was there already, by a retry or a reconciliation in between, nothing is added. */
  lemma OwedIsPaid(s: Engine, more: seq<Event>, owner: Owner, hookOK: bool)
    requires Inv(s) && owner in s.owed && LeavesOwed(more, owner)
    requires owner.Handler? ==> owner.chargerID !in s.calls
    ensures var w := s.owed[owner];
            var key := O.Key(w.kind, w.tx.transactionID);
            var before, after := Run(s, more).outbox, Step(Run(s, more), Enqueue(owner, hookOK)).outbox;
            && (O.HasKey(after.entries, key) <==>
                  O.HasKey(before.entries, key)
                  || (hookOK && R.Acceptable(w.kind, w.tx)))
            && (O.HasKey(before.entries, key) ==> after == before)
  {
    OwedStays(s, more, owner);
    RunKeepsInv(s, more);
    Paid(Run(s, more), owner, hookOK);
  }

  // ---------------------------------------------------------------- a retried start of a closed transaction

  /** The event is recovery's force-close of this transaction. */
  ghost predicate ForceCloses(s: Engine, e: Event, id: int) {
    && Enabled(s, e) && e.Boot? && e.boot.Close? && e.boot.storeOK
    && s.recoveries.tasks[e.boot.g].phase.tx.transactionID == id
  }

  ghost predicate NeverForced(s: Engine, mid: seq<Event>, id: int) {
    mid == []
    || (NeverForced(s, mid[..|mid| - 1], id) && !ForceCloses(Run(s, mid[..|mid| - 1]), mid[|mid| - 1], id))
  }

  lemma ForcedIsClosed(s: Engine, e: Event, id: int)
    requires Inv(s) && id in s.table.rows && ForceCloses(s, e, id)
    ensures id in Step(s, e).table.rows && !Step(s, e).table.rows[id].Open()
  {
    var t := s.recoveries.tasks[e.boot.g];
    assert B.TaskOK(s.table.rows, t);
    ForcedIsOwn(s.table.rows, t);
  }

  lemma BootStepLeavesOpen(s: Engine, e: Event, id: int)
    requires Enabled(s, e) && e.Boot? && !ForceCloses(s, e, id) && id in s.table.rows && s.table.rows[id].Open()
    ensures id in TableNext(s, e).rows && TableNext(s, e).rows[id].Open()
  {
    if OpOf(s, e).Some? { OpCloses(s.table, OpOf(s, e).value, s.now, id); }
  }

  lemma OthersLeaveOpen(s: Engine, e: Event, c: string, id: int)
    requires Enabled(s, e) && !e.Boot? && c in s.calls
    requires id in s.table.rows && s.table.rows[id].chargerID == c && s.table.rows[id].Open()
    ensures id in TableNext(s, e).rows && TableNext(s, e).rows[id].Open()
  {
    if OpOf(s, e).Some? {
      OpCloses(s.table, OpOf(s, e).value, s.now, id);
      assert OpOf(s, e).value.Stop? ==> OpOf(s, e).value.chargerID != c;
    }
  }

  /** While its charger waits for an answer, an open transaction is closed by a forced close only. */
  lemma ClosedWhileCalling(s: Engine, e: Event, c: string, id: int)
    requires Inv(s) && c in s.calls && id in s.table.rows && s.table.rows[id].chargerID == c && s.table.rows[id].Open()
    ensures id in Step(s, e).table.rows
    ensures Step(s, e).table.rows[id].Open() <==> !ForceCloses(s, e, id)
  {
    if ForceCloses(s, e, id) {
      ForcedIsClosed(s, e, id);
    } else if Enabled(s, e) {
      if e.Boot? {
        BootStepLeavesOpen(s, e, id);
      } else {
        OthersLeaveOpen(s, e, c, id);
      }
    }
  }

  /** What recovery closes is its own charger's. */
  lemma ForcedIsOwn(rows: Rows, t: B.Task)
    requires B.TaskOK(rows, t) && t.phase.Closing?
    ensures Known(rows, t.phase.tx.chargerID, t.phase.tx.transactionID)
  {
    assert B.OpenAt(t.atBoot, t.chargerID, t.boot[t.done].transactionID);
  }

  lemma {:induction false} OpenIffNeverForced(s: Engine, mid: seq<Event>, c: string, id: int)
    requires Inv(s) && c in s.calls && LeavesCall(mid, c)
    requires id in s.table.rows && s.table.rows[id].chargerID == c && s.table.rows[id].Open()
    ensures Inv(Run(s, mid)) && id in Run(s, mid).table.rows
    ensures Run(s, mid).table.rows[id].Open() <==> NeverForced(s, mid, id)
  {
    RunKeepsInv(s, mid);
    if mid != [] {
      var n := |mid| - 1;
      var init := mid[..n];
      OpenIffNeverForced(s, init, c, id);
      CallStays(s, init, c);
      RunKeepsInv(s, init);
      TableStep(Run(s, init), mid[n]);
      if Run(s, init).table.rows[id].Open() { ClosedWhileCalling(Run(s, init), mid[n], c, id); }
    }
  }

  /** A repeated start is answered with a transaction that is still open exactly if recovery did not force-close
      it between listing and decision. */
  lemma RetriedStartIsOpenIff(es: seq<Event>, c: string, call: S.Call, mid: seq<Event>, id: int)
    requires Listed(es, c, call, mid) && S.Busy(At(es).table.rows, c, call.connectorID, id)
    ensures var listed, late := Step(At(es), StartListed(c, call)), Late(es, c, call, mid);
            id in late.table.rows && (late.table.rows[id].Open() <==> NeverForced(listed, mid, id))
  {
    Reachable(es);
    StepKeepsInv(At(es), StartListed(c, call));
    OpenIffNeverForced(Step(At(es), StartListed(c, call)), mid, c, id);
  }

  // ---------------------------------------------------------------- limits

  ghost predicate CheckOwed(s: Engine, id: int) { exists c :: L.Check(c, id) in s.limits.checks }

  /** The event gives up on a transaction's limit: an exhausted loop releases it, or its check fails, or is lost
      in a restart. */
  ghost predicate GivesUp(s: Engine, e: Event, id: int) {
    && Enabled(s, e)
    && ((e.PayCheck? && e.id == id && !e.storeOK)
        || (e.LimitLoop? && e.storeOK && s.limits.workers[e.g].id == id && s.limits.workers[e.g].phase.Exhausted?)
        || (e.Restart? && CheckOwed(s, id)))
  }

  /** The event leaves a claim without its loop: the release fails, or the loop is lost in a restart. */
  ghost predicate LosesLoop(s: Engine, e: Event, id: int) {
    && Enabled(s, e)
    && ((e.LimitLoop? && !e.storeOK && s.limits.workers[e.g].id == id && s.limits.workers[e.g].phase.Exhausted?)
        || (e.Restart? && L.HasWorker(s.limits, id)))
  }

  ghost predicate LostAt(es: seq<Event>, i: int, id: int) {
    0 <= i < |es| && LosesLoop(At(es[..i]), es[i], id)
  }

  lemma StuckStep(s: Engine, e: Event, id: int)
    requires id in Step(s, e).limits.stuck && id !in s.limits.stuck
    ensures LosesLoop(s, e, id)
  {
    if e.Restart? {
      assert id in set g | g in s.limits.workers :: s.limits.workers[g].id;
      var g :| g in s.limits.workers && s.limits.workers[g].id == id;
      assert L.HasWorker(s.limits, id);
    }
  }

  lemma {:induction false} StuckMeansLost(es: seq<Event>, id: int)
    requires id in At(es).limits.stuck
    ensures exists i :: LostAt(es, i, id)
  {
    if es != [] {
      var n := |es| - 1;
      var init := es[..n];
      if id in At(init).limits.stuck {
        StuckMeansLost(init, id);
        var i :| LostAt(init, i, id);
        assert es[..i] == init[..i];
        assert LostAt(es, i, id);
      } else {
        StuckStep(At(init), es[n], id);
        assert LostAt(es, n, id);
      }
    }
  }

  /** A claim nobody serves. */
  ghost predicate Orphaned(s: Engine, id: int) {
    id in s.table.rows && s.table.rows[id].limitStopRequested && !L.HasWorker(s.limits, id)
  }

  lemma LosingOrphans(s: Engine, e: Event, id: int)
    requires Inv(s) && LosesLoop(s, e, id)
    ensures id in Step(s, e).limits.stuck && Orphaned(Step(s, e), id)
  {
    if e.Restart? {
      RestartOrphans(s.table.rows, s.limits, id);
    } else {
      FailedReleaseOrphans(s, e, id);
    }
  }

  lemma RestartOrphans(rows: Rows, l: L.Limits, id: int)
    requires L.WorkersOK(rows, l.workers, l.log) && L.HasWorker(l, id)
    ensures id in L.Restarted(l).stuck && !L.HasWorker(L.Restarted(l), id)
    ensures id in rows && rows[id].limitStopRequested
  {
    var g :| g in l.workers && l.workers[g].id == id;
    assert L.WorkerOK(rows, l.workers[g], l.log);
  }

  lemma FailedReleaseOrphans(s: Engine, e: Event, id: int)
    requires Inv(s) && LosesLoop(s, e, id) && e.LimitLoop?
    ensures id in LimitsNext(s, e).stuck && !L.HasWorker(LimitsNext(s, e), id)
    ensures TableNext(s, e) == s.table && id in s.table.rows && s.table.rows[id].limitStopRequested
  {
    assert L.WorkerOK(s.table.rows, s.limits.workers[e.g], s.limits.log);
  }

  lemma OpKeepsFlag(t: Table, op: Op, now: int, id: int)
    requires id in t.rows && t.rows[id].limitStopRequested && !(op.Release? && op.id == id)
    ensures id in Apply(t, op, now).rows && Apply(t, op, now).rows[id].limitStopRequested
  {
    if op.Create? { FirstFreeIsFree(t.rows, op.draws); }
  }

  /** Only its own loop releases a claim, and only an unclaimed transaction gets a loop. */
  lemma OrphanStaysFlagged(s: Engine, e: Event, id: int)
    requires Inv(s) && Orphaned(s, id)
    ensures id in Step(s, e).table.rows && Step(s, e).table.rows[id].limitStopRequested
  {
    if Enabled(s, e) { FlagStays(s, e, id); }
  }

  lemma FlagStays(s: Engine, e: Event, id: int)
    requires Enabled(s, e) && Orphaned(s, id)
    ensures id in TableNext(s, e).rows && TableNext(s, e).rows[id].limitStopRequested
  {
    if OpOf(s, e).Some? {
      if e.LimitLoop? { assert s.limits.workers[e.g].id != id; }
      OpKeepsFlag(s.table, OpOf(s, e).value, s.now, id);
    }
  }

  lemma OthersLeaveLoops(s: Engine, e: Event)
    requires Enabled(s, e) && !e.PayCheck? && !e.LimitLoop? && !e.Restart?
    ensures LimitsNext(s, e).workers == s.limits.workers
  {}

  lemma OrphanStaysAlone(s: Engine, e: Event, id: int)
    requires Inv(s) && Orphaned(s, id)
    ensures !L.HasWorker(Step(s, e).limits, id)
  {
    if Enabled(s, e) {
      if e.PayCheck? {
        CheckServesNoOrphan(s.limits, s.table.rows, e.chargerID, e.id, e.storeOK, id);
      } else if e.LimitLoop? {
        LoopServesNoOrphan(s.limits, s.table.rows, e.g, s.now, e.storeOK, e.accepted, id);
      } else if !e.Restart? {
        OthersLeaveLoops(s, e);
      }
    }
  }

  lemma CheckServesNoOrphan(l: L.Limits, rows: Rows, c: string, checked: int, storeOK: bool, id: int)
    requires L.Check(c, checked) in l.checks && id in rows && rows[id].limitStopRequested && !L.HasWorker(l, id)
    ensures !L.HasWorker(L.OnCheck(l, rows, c, checked, storeOK), id)
  {}

  lemma LoopServesNoOrphan(l: L.Limits, rows: Rows, g: nat, now: int, storeOK: bool, accepted: bool, id: int)
    requires g in l.workers && !L.HasWorker(l, id)
    ensures !L.HasWorker(L.OnWorker(l, rows, g, now, storeOK, accepted), id)
  {
    assert l.workers[g].id != id;
  }

  lemma {:induction false} LostStaysOrphaned(es: seq<Event>, i: int, id: int)
    requires LostAt(es, i, id)
    ensures Orphaned(At(es), id)
  {
    var n := |es| - 1;
    var init := es[..n];
    Reachable(init);
    if i == n {
      LosingOrphans(At(init), es[n], id);
    } else {
      assert es[..i] == init[..i];
      LostStaysOrphaned(init, i, id);
      OrphanStaysFlagged(At(init), es[n], id);
      OrphanStaysAlone(At(init), es[n], id);
    }
  }

  /** An open transaction's claim is without a loop exactly if some earlier event of the run was a failed release
      of that loop or a restart while it ran; and no other loop ever serves it again. */
  lemma ClaimWithoutLoopIff(es: seq<Event>, id: int)
    requires id in At(es).table.rows && At(es).table.rows[id].Open()
    ensures At(es).table.rows[id].limitStopRequested && !L.HasWorker(At(es).limits, id)
            <==> exists i :: LostAt(es, i, id)
  {
    Reachable(es);
    if Orphaned(At(es), id) {
      StuckMeansLost(es, id);
    } else if i :| LostAt(es, i, id) {
      LostStaysOrphaned(es, i, id);
    }
  }

  /** The event writes a transaction's consumption or limit. */
  ghost predicate Writes(s: Engine, e: Event, id: int) {
    && Enabled(s, e) && OpOf(s, e).Some? && OpOf(s, e).value.Names(s.table.rows, id)
    && (OpOf(s, e).value.LiveMeter? || (OpOf(s, e).value.SetMaxKWh? && id in s.table.rows
          && s.table.rows[id].chargerID != ""))
  }

  ghost predicate GivenUpSince(es: seq<Event>, i: int, id: int) {
    0 <= i < |es| && GivesUp(At(es[..i]), es[i], id) && forall j :: i < j < |es| ==> !Writes(At(es[..j]), es[j], id)
  }

  lemma ExcusedStep(s: Engine, e: Event, id: int)
    requires id in Step(s, e).limits.excused && !GivesUp(s, e, id)
    ensures id in s.limits.excused && !Writes(s, e, id)
  {
    if e.Restart? {
      LostCheck(s, id);
    } else {
      ExcusedWhileUp(s, e, id);
    }
  }

  lemma ExcusedWhileUp(s: Engine, e: Event, id: int)
    requires id in Step(s, e).limits.excused && !e.Restart? && !GivesUp(s, e, id)
    ensures id in s.limits.excused && !Writes(s, e, id)
  {}

  lemma LostCheck(s: Engine, id: int)
    requires id in L.Restarted(s.limits).excused
    ensures id in s.limits.excused || CheckOwed(s, id)
  {
    if id !in s.limits.excused {
      var k :| k in s.limits.checks && k.id == id;
      assert k == L.Check(k.chargerID, id);
    }
  }

  lemma GivenUpStays(es: seq<Event>, i: int, id: int)
    requires es != [] && GivenUpSince(es[..|es| - 1], i, id)
    requires !Writes(At(es[..|es| - 1]), es[|es| - 1], id)
    ensures GivenUpSince(es, i, id)
  {
    var n := |es| - 1;
    var init := es[..n];
    assert es[..i] == init[..i];
    forall j | i < j < |es| ensures !Writes(At(es[..j]), es[j], id) {
      if j < n { assert es[..j] == init[..j] && es[j] == init[j]; }
    }
  }

  lemma {:induction false} ExcusedMeansGivenUp(es: seq<Event>, id: int)
    requires id in At(es).limits.excused
    ensures exists i :: GivenUpSince(es, i, id)
  {
    if es != [] {
      var n := |es| - 1;
      var init, e := es[..n], es[n];
      if GivesUp(At(init), e, id) {
        assert GivenUpSince(es, n, id);
      } else {
        ExcusedStep(At(init), e, id);
        ExcusedMeansGivenUp(init, id);
        var i :| GivenUpSince(init, i, id);
        GivenUpStays(es, i, id);
      }
    }
  }

  /** No missed limit: an open transaction over its limit is claimed with a live loop behind it, or a check
      is still owed, or it was given up since its last meter or limit write, or some event of the run cost its
      claim the loop, for good. */
  lemma NoMissedLimit(es: seq<Event>, id: int)
    ensures var s := At(es);
            var rows := s.table.rows;
            id in rows && rows[id].Open() && rows[id].OverLimit() && rows[id].chargerID != "" ==>
              || (rows[id].limitStopRequested && L.HasWorker(s.limits, id))
              || L.Check(rows[id].chargerID, id) in s.limits.checks
              || (exists i :: GivenUpSince(es, i, id))
              || (rows[id].limitStopRequested && exists i :: LostAt(es, i, id))
  {
    Reachable(es);
    var s := At(es);
    if id in s.table.rows {
      assert !L.Missed(s.table.rows, s.limits, id);
      if id in s.limits.excused { ExcusedMeansGivenUp(es, id); }
      if id in s.limits.stuck { StuckMeansLost(es, id); }
    }
  }

  /** If the store does not fail, which the in-memory store never does, and the central system does not restart,
      giving up can only have been the release of an exhausted loop. */
  lemma NoMissedLimitIfStoreWorks(es: seq<Event>, id: int)
    requires forall i :: 0 <= i < |es| ==> !es[i].Restart? && (es[i].PayCheck? || es[i].LimitLoop? ==> es[i].storeOK)
    ensures var s := At(es);
            var rows := s.table.rows;
            id in rows && rows[id].Open() && rows[id].OverLimit() && rows[id].chargerID != "" ==>
              || (rows[id].limitStopRequested && L.HasWorker(s.limits, id))
              || L.Check(rows[id].chargerID, id) in s.limits.checks
              || exists i :: GivenUpSince(es, i, id) && es[i].LimitLoop?
  {
    NoMissedLimit(es, id);
    if i :| GivenUpSince(es, i, id) {
      assert es[i].LimitLoop?;
    }
  }

  /** Exclusivity: one loop per transaction, its flag set while it runs, at most six RemoteStops and a
      minute of pauses, and a claim given back before the next. */
  lemma LimitStopsAreExclusive(es: seq<Event>, g: nat, h: nat)
    ensures var l := At(es).limits;
            && (g in l.workers && h in l.workers && l.workers[g].id == l.workers[h].id ==> g == h)
            && (g in l.workers ==>
                  && l.workers[g].id in At(es).table.rows && At(es).table.rows[l.workers[g].id].limitStopRequested
                  && l.workers[g].sent <= L.MAX_ATTEMPTS && l.workers[g].slept <= 60)
  {
    Reachable(es);
    var l := At(es).limits;
    if g in l.workers {
      var w := l.workers[g];
      assert L.WorkerOK(At(es).table.rows, w, l.log);
      L.SleptAtMostAMinute(w.attempt - 1);
      if w.phase.Sleeping? { L.SleptAtMostAMinute(w.attempt); }
    }
  }

  lemma ClaimsAlternateWithReleases(es: seq<Event>, i: nat, j: nat, id: int)
    requires i < j < |At(es).limits.log|
    requires At(es).limits.log[i] == L.Claimed(id) && At(es).limits.log[j] == L.Claimed(id)
    ensures exists k :: i < k < j && At(es).limits.log[k] == L.Cleared(id)
    ensures L.SendsSince(At(es).limits.log[..j], id) <= L.MAX_ATTEMPTS
  {
    Reachable(es);
    L.ReleaseBetweenClaims(At(es).limits.log, i, j, id);
    L.AtMostSixStops(At(es).limits.log, j, id);
  }

  lemma ClosedStaysClosed(s: Engine, es: seq<Event>, id: int)
    requires Inv(s) && id in s.table.rows && !s.table.rows[id].Open()
    ensures id in Run(s, es).table.rows && !Run(s, es).table.rows[id].Open()
  {
    RunKeepsInv(s, es);
  }

  /** `after` continues `before` without another claim of this transaction. */
  predicate NoClaimSince(before: seq<L.Event>, after: seq<L.Event>, id: int) {
    before <= after && forall j :: |before| <= j < |after| ==> after[j] != L.Claimed(id)
  }

  /** Once closed, a transaction is never claimed again, over every continuation. */
  lemma {:induction false} ClosedNeverClaimedAgain(s: Engine, es: seq<Event>, id: int)
    requires Inv(s) && id in s.table.rows && !s.table.rows[id].Open()
    ensures NoClaimSince(s.limits.log, Run(s, es).limits.log, id)
  {
    if es != [] {
      var init := es[..|es| - 1];
      ClosedNeverClaimedAgain(s, init, id);
      ClosedStaysClosed(s, init, id);
      LogGrowsByOne(Run(s, init), es[|es| - 1], id);
    }
  }

  lemma LogGrowsByOne(s: Engine, e: Event, id: int)
    requires id in s.table.rows && !s.table.rows[id].Open()
    ensures NoClaimSince(s.limits.log, Step(s, e).limits.log, id)
  {
    if Enabled(s, e) {
      if e.PayCheck? {
        CheckLog(s.limits, s.table.rows, e.chargerID, e.id, e.storeOK, id);
      } else if e.LimitLoop? {
        LoopLog(s.limits, s.table.rows, e.g, s.now, e.storeOK, e.accepted, id);
      }
    }
  }

  lemma CheckLog(l: L.Limits, rows: Rows, c: string, checked: int, storeOK: bool, id: int)
    requires L.Check(c, checked) in l.checks && id in rows && !rows[id].Open()
    ensures NoClaimSince(l.log, L.OnCheck(l, rows, c, checked, storeOK).log, id)
  {}

  lemma LoopLog(l: L.Limits, rows: Rows, g: nat, now: int, storeOK: bool, accepted: bool, id: int)
    requires g in l.workers
    ensures NoClaimSince(l.log, L.OnWorker(l, rows, g, now, storeOK, accepted).log, id)
  {}

  // ---------------------------------------------------------------- streams

  /** At rest every stream shows the stored row. */
  lemma StreamsShowTheRow(es: seq<Event>, sub: int)
    requires H.AtRest(At(es).hub) && sub in At(es).hub.streams
    ensures var st := At(es).hub.streams[sub];
            st.sent != [] && st.id in At(es).table.rows && st.sent[|st.sent| - 1] == At(es).table.rows[st.id]
  {
    Reachable(es);
    H.AtRestEveryStreamShowsTheRow(At(es).table.rows, At(es).hub, sub);
  }

  /** Before that, a stream that shows something else has news on its way. */
  lemma StaleStreamHasNews(es: seq<Event>, sub: int)
    requires sub in At(es).hub.streams
    ensures var h := At(es).hub;
            var st := h.streams[sub];
            st.id in At(es).table.rows
            && (st.sent == [] || st.sent[|st.sent| - 1] != At(es).table.rows[st.id] ==>
                  st.phase.MustRead? || st.phase == H.Loaded(At(es).table.rows[st.id])
                  || st.id in h.unpublished || H.Signalled(h.subs, st.id, sub))
  {
    Reachable(es);
    assert H.StreamOK(At(es).table.rows, At(es).hub, sub);
  }

  lemma StreamsNeverGoBack(es: seq<Event>, sub: int, i: nat, j: nat)
    requires sub in At(es).hub.streams && i <= j < |At(es).hub.streams[sub].sent|
    ensures var sent := At(es).hub.streams[sub].sent;
            && SameIdentity(sent[i], sent[j])
            && (H.StatusOf(sent[i]).COMPLETED? ==>
                  H.StatusOf(sent[j]).COMPLETED?
                  && sent[j].stopTime == sent[i].stopTime)
  {
    Reachable(es);
    H.NeverBackToRunning(At(es).table.rows, At(es).hub, sub, i, j);
    assert H.StreamOK(At(es).table.rows, At(es).hub, sub);
  }

  // ---------------------------------------------------------------- boot recovery

  /** A snapshot really is the table at the moment some handler listed it. */
  ghost predicate TakenAt(es: seq<Event>, i: int, c: string, atBoot: Rows) {
    && 0 <= i < |es| && es[i].Boot? && es[i].boot.Snapshot? && es[i].boot.chargerID == c
    && At(es[..i]).table.rows == atBoot
  }

  ghost predicate Taken(es: seq<Event>, c: string, atBoot: Rows) {
    exists i :: TakenAt(es, i, c, atBoot)
  }

  lemma TakenStays(es: seq<Event>, c: string, atBoot: Rows)
    requires es != [] && Taken(es[..|es| - 1], c, atBoot)
    ensures Taken(es, c, atBoot)
  {
    var init := es[..|es| - 1];
    var i :| TakenAt(init, i, c, atBoot);
    assert es[..i] == init[..i];
    assert TakenAt(es, i, c, atBoot);
  }

  lemma BootTasks(r: B.Recoveries, rows: Rows, now: int, e: B.BootEvent)
    requires B.Enabled(r, rows, now, e)
    ensures var after := B.BootNext(r, rows, now, e).tasks;
            forall g :: g in after ==>
              || (g in r.tasks && after[g].chargerID == r.tasks[g].chargerID && after[g].atBoot == r.tasks[g].atBoot)
              || (e.Snapshot? && after[g].chargerID == e.chargerID && after[g].atBoot == rows)
  {}

  /** A step takes no snapshot but the listing one ... */
  lemma SnapshotStep(s: Engine, e: Event)
    ensures var before, after := s.recoveries.tasks, Step(s, e).recoveries.tasks;
            forall g :: g in after ==>
              || (g in before && after[g].chargerID == before[g].chargerID && after[g].atBoot == before[g].atBoot)
              || (e.Boot? && e.boot.Snapshot? && after[g].chargerID == e.boot.chargerID
                    && after[g].atBoot == s.table.rows)
  {
    if Enabled(s, e) && e.Boot? { BootTasks(s.recoveries, s.table.rows, s.now, e.boot); }
  }

  /** ... and acts only on snapshots already taken. */
  lemma ActStep(s: Engine, e: Event)
    ensures var before, after := s.recoveries, Step(s, e).recoveries;
            && before.acts <= after.acts
            && forall k :: |before.acts| <= k < |after.acts| ==>
                 exists g :: g in before.tasks && after.acts[k].chargerID == before.tasks[g].chargerID
                             && after.acts[k].atBoot == before.tasks[g].atBoot
  {
    if Enabled(s, e) && e.Boot? && (e.boot.Close? || e.boot.Ask?) {
      var t := s.recoveries.tasks[e.boot.g];
      assert t == s.recoveries.tasks[e.boot.g];
    }
  }

  lemma {:induction false} SnapshotsAreReal(es: seq<Event>)
    ensures forall g :: g in At(es).recoveries.tasks ==>
              Taken(es, At(es).recoveries.tasks[g].chargerID, At(es).recoveries.tasks[g].atBoot)
    ensures forall k :: 0 <= k < |At(es).recoveries.acts| ==>
              Taken(es, At(es).recoveries.acts[k].chargerID, At(es).recoveries.acts[k].atBoot)
  {
    if es != [] {
      var n := |es| - 1;
      var init, e := es[..n], es[n];
      SnapshotsAreReal(init);
      var before, after := At(init).recoveries, At(es).recoveries;
      SnapshotStep(At(init), e);
      ActStep(At(init), e);
      forall c, atBoot | Taken(init, c, atBoot) ensures Taken(es, c, atBoot) { TakenStays(es, c, atBoot); }
      forall g | g in after.tasks ensures Taken(es, after.tasks[g].chargerID, after.tasks[g].atBoot) {
        if e.Boot? && e.boot.Snapshot? && after.tasks[g].chargerID == e.boot.chargerID
            && after.tasks[g].atBoot == At(init).table.rows {
          assert TakenAt(es, n, after.tasks[g].chargerID, after.tasks[g].atBoot);
        }
      }
      forall k | 0 <= k < |after.acts| ensures Taken(es, after.acts[k].chargerID, after.acts[k].atBoot) {
        if k < |before.acts| { assert after.acts[k] == before.acts[k]; }
      }
    }
  }

  /** Isolation: recovery force-closes or remote-stops only transactions that were open, and that
      charger's, when the charger booted: never one created later. */
  lemma RecoveryIsIsolated(es: seq<Event>, k: nat)
    requires k < |At(es).recoveries.acts|
    ensures var act := At(es).recoveries.acts[k];
            exists i :: && TakenAt(es, i, act.chargerID, act.atBoot)
                        && B.OpenAt(At(es[..i]).table.rows, act.chargerID, act.id)
  {
    Reachable(es);
    SnapshotsAreReal(es);
    var act := At(es).recoveries.acts[k];
    assert Taken(es, act.chargerID, act.atBoot);
    var i :| TakenAt(es, i, act.chargerID, act.atBoot);
    assert TakenAt(es, i, act.chargerID, act.atBoot) && B.OpenAt(At(es[..i]).table.rows, act.chargerID, act.id);
  }

  /** ... and at most one recovery runs per charger, exactly while its flag is taken. */
  lemma OneRecoveryPerCharger(es: seq<Event>, g: nat, h: nat)
    ensures var r := At(es).recoveries;
            g in r.tasks && h in r.tasks && r.tasks[g].chargerID == r.tasks[h].chargerID ==>
                g == h
                && r.tasks[g].chargerID in r.running
  {
    Reachable(es);
    var r := At(es).recoveries;
    if g in r.tasks { assert B.HasTask(r, r.tasks[g].chargerID); }
  }

  lemma OpCloses(t: Table, op: Op, now: int, id: int)
    requires id in t.rows && t.rows[id].Open()
    ensures id in Apply(t, op, now).rows
    ensures !Apply(t, op, now).rows[id].Open() ==>
              (op.Stop? || op.ForceClose?) && op.id == id && op.chargerID == t.rows[id].chargerID
  {
    if op.Create? { FirstFreeIsFree(t.rows, op.draws); }
  }

  /** A step closes a transaction only if its charger stops it or a recovery of that charger, from its own
      snapshot, force-closes it. */
  lemma WhoCloses(s: Engine, e: Event, id: int)
    requires Inv(s) && id in s.table.rows && s.table.rows[id].Open()
    ensures id in Step(s, e).table.rows
    ensures !Step(s, e).table.rows[id].Open() ==>
              || (e.StopCall? && e.id == id && e.chargerID == s.table.rows[id].chargerID)
              || (e.Boot? && e.boot.Close? && Step(s, e).recoveries.acts
                  == s.recoveries.acts + [B.ForceClosed(s.table.rows[id].chargerID, id,
                      s.recoveries.tasks[e.boot.g].atBoot)])
  {
    if Enabled(s, e) {
      if e.Boot? {
        RecoveryCloses(s, e, id);
      } else {
        HandlerCloses(s, e, id);
      }
    }
  }

  lemma HandlerCloses(s: Engine, e: Event, id: int)
    requires Enabled(s, e) && !e.Boot? && id in s.table.rows && s.table.rows[id].Open()
    ensures id in TableNext(s, e).rows
    ensures !TableNext(s, e).rows[id].Open() ==>
              e.StopCall? && e.id == id && e.chargerID == s.table.rows[id].chargerID
  {
    if OpOf(s, e).Some? { OpCloses(s.table, OpOf(s, e).value, s.now, id); }
  }

  lemma RecoveryCloses(s: Engine, e: Event, id: int)
    requires Inv(s) && Enabled(s, e) && e.Boot? && id in s.table.rows && s.table.rows[id].Open()
    ensures id in TableNext(s, e).rows
    ensures !TableNext(s, e).rows[id].Open() ==>
              e.boot.Close? && RecoveriesNext(s, e).acts
              == s.recoveries.acts + [B.ForceClosed(s.table.rows[id].chargerID, id,
                  s.recoveries.tasks[e.boot.g].atBoot)]
  {
    if OpOf(s, e).Some? { OpCloses(s.table, OpOf(s, e).value, s.now, id); }
    if e.boot.Close? { assert B.TaskOK(s.table.rows, s.recoveries.tasks[e.boot.g]); }
  }

  /** A ghost close that no meter value or stop overtook keeps the last known consumption, 0 if none. */
  lemma GhostCloseKeepsConsumption(s: Engine, g: nat)
    requires Inv(s) && Enabled(s, Boot(B.Close(g, true)))
    requires var tx := s.recoveries.tasks[g].phase.tx;
             tx.transactionID in s.table.rows && s.table.rows[tx.transactionID] == tx && tx.Open()
    ensures var tx := s.recoveries.tasks[g].phase.tx;
            var row := Step(s, Boot(B.Close(g, true))).table.rows[tx.transactionID];
            && row.stopTime == Some(s.now)
            && row.totalConsumption == Some(if tx.totalConsumption.Some? then tx.totalConsumption.value else 0.0)
  {
    var tx := s.recoveries.tasks[g].phase.tx;
    assert RowOK(tx.transactionID, tx, s.table.nextRowID, s.now);
    GhostCloseKeepsConsumptionIff(tx, tx, s.table.nextRowID, s.now);
  }

  // ---------------------------------------------------------------- callbacks

  /** Keys stay unique, and a completed entry never exists for an open transaction. */
  lemma CallbacksMatchTransactions(es: seq<Event>, a: int, b: int)
    ensures var o := At(es).outbox.entries;
            && (a in o && b in o && o[a].key == o[b].key ==> a == b)
            && (a in o ==> o[a].key.transactionID in At(es).table.rows && o[a].retries < O.MaxRetries(o[a].key.kind))
            && (a in o && o[a].key.kind.CompletedKind? ==> !At(es).table.rows[o[a].key.transactionID].Open())
  {
    Reachable(es);
  }

  /** Sent and fatal are terminal over every continuation. */
  lemma {:induction false} SettledStaysSettled(s: Engine, es: seq<Event>, a: int)
    requires Inv(s) && a in s.outbox.entries && s.outbox.entries[a].Terminal()
    ensures a in Run(s, es).outbox.entries && Run(s, es).outbox.entries[a] == s.outbox.entries[a]
  {
    if es != [] {
      var init := es[..|es| - 1];
      SettledStaysSettled(s, init, a);
      RunKeepsInv(s, init);
      SettledStep(Run(s, init), es[|es| - 1], a);
    }
  }

  /** A mark reaches only an entry in processing: the worker's copies are current. */
  lemma SettledStep(s: Engine, e: Event, a: int)
    requires Inv(s) && a in s.outbox.entries && s.outbox.entries[a].Terminal()
    ensures a in Step(s, e).outbox.entries && Step(s, e).outbox.entries[a] == s.outbox.entries[a]
  {
    if Enabled(s, e) && e.Mark? { assert O.Holds(s.outbox.entries, s.held[0]); }
  }
}
