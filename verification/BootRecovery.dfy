/** The work of one boot recovery goroutine (internal/ocpp16hal/recovery.go), run without interference: the
    snapshotted transactions one after the other, each refreshed, then closed as a ghost or hydrated and asked
    to stop. How such goroutines interleave with the rest is in Recovery and Engine. */
module BootRecovery {
  import opened Wrappers
  import opened Rows
  import opened Handlers
  import O = Outbox
  import R = Reconcile
  import A = Agreement
  import B = Recovery
  import G = Registry
  import StatusText

  // ---------------------------------------------------------------- asking a charger to stop

  /** The pause after the k-th failed attempt. */
  function Pause(k: nat): nat {
    if k <= 1 then B.FIRST_PAUSE
    else if 2 * Pause(k - 1) > B.MAX_PAUSE then B.MAX_PAUSE else 2 * Pause(k - 1)
  }

  function Paused(k: nat): nat { if k == 0 then 0 else Paused(k - 1) + Pause(k) }

  const MAX_ASKS := 9

  /** Nine pauses do not fit into the five minutes a recovery may run. */
  lemma NinePausesAreTooLong()
    ensures Paused(MAX_ASKS - 1) < B.MAX_RUNTIME < Paused(MAX_ASKS)
  {
    assert Pause(2) == 4 && Pause(4) == 16 && Pause(6) == 60 && Pause(8) == 60;
    assert Paused(2) == 6 && Paused(4) == 30 && Paused(6) == 122 && Paused(8) == 242;
  }

  /** What one call of the retry loop meets. */
  datatype Call = Call(now: int, answered: bool)

  /** The steps of Recovery's goroutine while it asks for one transaction. */
  function AskRun(t: B.Task, run: seq<Call>): B.Task {
    if run == [] then t
    else
      var before, last := AskRun(t, run[..|run| - 1]), run[|run| - 1];
      if before.phase.Stopping? then B.AskNext(before, last.now, last.answered)
      else if before.phase.Unlocking? then B.UnlockNext(before, last.now, last.answered)
      else before
  }

  lemma OneMoreCall(t: B.Task, run: seq<Call>, next: Call)
    ensures var before := AskRun(t, run);
            AskRun(t, run + [next])
            == if before.phase.Stopping? then B.AskNext(before, next.now, next.answered)
               else if before.phase.Unlocking? then B.UnlockNext(before, next.now, next.answered)
               else before
  {
    assert (run + [next])[..|run|] == run;
  }

  /** One attempt: is the RemoteStop answered, is the UnlockConnector after it, and how long do they take? */
  datatype Attempt = Attempt(stopped: bool, unlocked: bool, stopTakes: nat, unlockTakes: nat)
  {
    predicate Done() { stopped && unlocked }
  }

  /** The goroutine is still asking for the same transaction. */
  predicate Asking(now: B.Task, t: B.Task, delay: nat)
    requires t.phase.Stopping?
  {
    now.phase.Stopping? && now.phase.pause == delay && now == t.(phase := now.phase) && now.phase.tx == t.phase.tx
  }

  /** One attempt: RemoteStop and, if that is answered, UnlockConnector. */
  method AskOnce(a: Attempt, now: int, delay: nat, ghost t: B.Task, ghost run: seq<Call>)
    returns (done: bool, end: int, ghost more: seq<Call>)
    requires t.phase.Stopping? && Asking(AskRun(t, run), t, delay) && now < t.deadline
    ensures done == a.Done() && end >= now
    ensures if done then AskRun(t, more) == B.Skip(t) else Asking(AskRun(t, more), t, NextPause(delay))
  {
    OneMoreCall(t, run, Call(now, a.stopped));
    more := run + [Call(now, a.stopped)];
    end := now + a.stopTakes;
    done := false;
    if a.stopped {
      OneMoreCall(t, more, Call(end, a.unlocked));
      more := more + [Call(end, a.unlocked)];
      end := end + a.unlockTakes;
      done := a.unlocked;
    }
  }

  function NextPause(delay: nat): nat {
    if 2 * delay > B.MAX_PAUSE then B.MAX_PAUSE else 2 * delay
  }

  /** A further pause that ends before the deadline is not the ninth. */
  lemma OnePauseMore(asks: nat, end: int, start: int, deadline: int)
    requires 1 <= asks <= MAX_ASKS && deadline <= start + B.MAX_RUNTIME && end >= start + Paused(asks - 1)
    ensures NextPause(Pause(asks)) == Pause(asks + 1)
    ensures end + Pause(asks) < deadline ==> asks < MAX_ASKS && end + Pause(asks) >= start + Paused(asks)
  {
    NinePausesAreTooLong();
  }

  /** remoteStopAndUnlockWithRetry against every charger (`answers(k)` is attempt k). It is a run of Recovery's
      goroutine for this transaction; it ends at the first attempt answered in full, gives up only at the
      deadline, and asks at most nine times. */
  method RemoteStopAndUnlockWithRetry(answers: nat -> Attempt, start: int, deadline: int, ghost t: B.Task)
    returns (asked: nat, done: bool, end: int, ghost run: seq<Call>)
    requires deadline <= start + B.MAX_RUNTIME
    requires t.deadline == deadline && t.phase.Stopping? && t.phase.pause == B.FIRST_PAUSE
    ensures asked <= MAX_ASKS && start <= end
    ensures asked == 0 <==> start >= deadline
    ensures done ==> asked > 0 && answers(asked - 1).Done()
    ensures forall k: nat :: k < (if done then asked - 1 else asked) ==> !answers(k).Done()
    ensures !done ==> end >= deadline
    ensures AskRun(t, run) == B.Skip(t)
  {
    asked, done, end, run := 0, false, start, [];
    var delay := B.FIRST_PAUSE;
    while end < deadline
      invariant asked <= MAX_ASKS && !done && delay == Pause(asked + 1) && start <= end
      invariant end < deadline ==> asked < MAX_ASKS && end >= start + Paused(asked)
      invariant asked == 0 ==> end == start
      invariant asked > 0 ==> start < deadline
      invariant forall k: nat :: k < asked ==> !answers(k).Done()
      invariant Asking(AskRun(t, run), t, delay)
      decreases MAX_ASKS - asked, if end < deadline then 1 else 0
    {
      done, end, run := AskOnce(answers(asked), end, delay, t, run);
      asked := asked + 1;
      if done {
        return;
      }
      OnePauseMore(asked, end, start, deadline);
      if end + delay >= deadline {
        end := if end > deadline then end else deadline;
      } else {
        end := end + delay;
      }
      delay := NextPause(delay);
    }
    OneMoreCall(t, run, Call(end, false));
    run := run + [Call(end, false)];
  }

  // ---------------------------------------------------------------- one transaction

  /** After the row is closed: the registry hears of it, and the completed callback goes out. */
  function Announced(sys: System, tx: Transaction, row: Transaction, hookOK: bool, now: int): System {
    sys.(outbox := if hookOK && R.CompletedOK(row)
        then O.Enqueue(sys.outbox, O.Key(O.CompletedKind, row.transactionID), now) else sys.outbox,
         chargers := G.AfterStop(sys.chargers, tx.chargerID, tx.connectorID, LastKnownMeter(tx)))
  }

  /** forceCloseGhostTransaction on the version `tx` it was judged by. */
  function GhostClosed(sys: System, tx: Transaction, hookOK: bool, now: int): System {
    if !Known(sys.table.rows, tx.chargerID, tx.transactionID) then sys
    else
      var t := Apply(sys.table, ForceClose(tx.chargerID, tx.transactionID, LastKnownMeter(tx)), now);
      Announced(sys.(table := t), tx, t.rows[tx.transactionID], hookOK, now)
  }

  /** What one snapshotted transaction comes to. */
  function RecoveredOne(sys: System, c: string, id: int, hookOK: bool, now: int): System {
    if !Known(sys.table.rows, c, id) || !sys.table.rows[id].Open() then sys
    else
      var tx := sys.table.rows[id];
      if A.IsGhost(sys.chargers, tx) then GhostClosed(sys, tx, hookOK, now)
      else sys.(chargers := A.Hydrated(sys.chargers, tx))
  }

  /** A transaction taken up at some time. */
  datatype Work = Work(id: int, now: int)

  function Recovered(sys: System, c: string, works: seq<Work>, hookOK: bool): System {
    if works == [] then sys
    else
      var w := works[|works| - 1];
      RecoveredOne(Recovered(sys, c, works[..|works| - 1], hookOK), c, w.id, hookOK, w.now)
  }

  predicate WorksOn(works: seq<Work>, boot: seq<Transaction>) {
    |works| == |boot| && forall i :: 0 <= i < |boot| ==> works[i].id == boot[i].transactionID
  }

  predicate InTime(works: seq<Work>, start: int) {
    (forall i :: 0 <= i < |works| ==> start <= works[i].now)
    && forall i, j :: 0 <= i < j < |works| ==> works[i].now <= works[j].now
  }

  lemma OneMoreWork(works: seq<Work>, boot: seq<Transaction>, i: int, now: int, start: int)
    requires 0 <= i < |boot| && WorksOn(works, boot[..i]) && InTime(works, start) && start <= now
    requires forall k :: 0 <= k < i ==> works[k].now <= now
    ensures var more := works + [Work(boot[i].transactionID, now)];
            && more[..i] == works && WorksOn(more, boot[..i + 1]) && InTime(more, start)
            && forall k :: 0 <= k <= i ==> more[k].now <= now
  {}

  /** What a ghost close makes of an open row: closed, the consumption kept, 0 if no meter value came. */
  predicate ClosedAsKnown(before: Transaction, after: Transaction) {
    && after.stopTime.Some?
    && after == before.(stopTime := after.stopTime, meterStop := Some(LastKnownMeter(before)),
                        totalConsumption := Some(if before.totalConsumption.Some? then before.totalConsumption.value
                            else 0.0))
  }

  lemma OneRecovered(sys: System, c: string, id: int, hookOK: bool, before: int, now: int)
    requires TableInv(sys.table, before) && before <= now
    ensures var rows, rows' := sys.table.rows, RecoveredOne(sys, c, id, hookOK, now).table.rows;
            && rows'.Keys == rows.Keys
            && (forall x :: x in rows && rows'[x] != rows[x] ==>
                  x == id && B.OpenAt(rows, c, x)
                  && ClosedAsKnown(rows[x], rows'[x]))
    ensures TableInv(RecoveredOne(sys, c, id, hookOK, now).table, now)
  {
    var rows := sys.table.rows;
    if B.OpenAt(rows, c, id) && A.IsGhost(sys.chargers, rows[id]) {
      assert RowOK(id, rows[id], sys.table.nextRowID, before);
      GhostCloseKeepsConsumptionIff(rows[id], rows[id], sys.table.nextRowID, now);
      ApplyKeepsInv(sys.table, ForceClose(c, id, LastKnownMeter(rows[id])), before, now);
    }
  }

  /** Recovery as a whole: no row appears or vanishes, and a row that changes was open on this charger and in
      the snapshot, and is now closed with its last known consumption. */
  lemma {:induction false} RecoveryOnlyClosesItsOwn(sys: System, c: string, works: seq<Work>, hookOK: bool, start: int)
    requires TableInv(sys.table, start) && InTime(works, start)
    ensures var rows, rows' := sys.table.rows, Recovered(sys, c, works, hookOK).table.rows;
            && rows'.Keys == rows.Keys
            && (forall x :: x in rows && rows'[x] != rows[x] ==>
                  (exists i :: 0 <= i < |works| && works[i].id == x) && B.OpenAt(rows, c, x)
                      && ClosedAsKnown(rows[x], rows'[x]))
    ensures TableInv(Recovered(sys, c, works, hookOK).table, if works == [] then start else works[|works| - 1].now)
  {
    if works != [] {
      var init, w := works[..|works| - 1], works[|works| - 1];
      RecoveryOnlyClosesItsOwn(sys, c, init, hookOK, start);
      var mid := Recovered(sys, c, init, hookOK);
      OneRecovered(mid, c, w.id, hookOK, if init == [] then start else init[|init| - 1].now, w.now);
      var rows, rows' := sys.table.rows, Recovered(sys, c, works, hookOK).table.rows;
      forall x | x in rows && rows'[x] != rows[x]
        ensures (exists i :: 0 <= i < |works| && works[i].id == x) && B.OpenAt(rows, c, x)
                  && ClosedAsKnown(rows[x], rows'[x])
      {
        if mid.table.rows[x] != rows[x] {
          var i :| 0 <= i < |init| && init[i].id == x;
          assert works[i].id == x;
        } else {
          assert works[|init|].id == x;
        }
      }
    }
  }

  // ---------------------------------------------------------------- the goroutine

  class Recoverer {
    const hal: HAL

    constructor (hal: HAL)
      ensures this.hal == hal
    {
      this.hal := hal;
    }

    method IsGhostAvailableTransaction(tx: Transaction) returns (free: bool)
      ensures free <==> A.IsGhost(hal.registry.chargers, tx)
    {
      var chargers := hal.registry.chargers;
      if tx.chargerID !in chargers {
        return false;
      }
      if tx.connectorID !in chargers[tx.chargerID].connectors {
        return false;
      }
      var conn := chargers[tx.chargerID].connectors[tx.connectorID];
      if !StatusText.IsAvailable(conn.status) {
        return false;
      }
      free := conn.transactionID.None? || conn.transactionID.value == tx.transactionID;
    }

    method Announce(tx: Transaction, row: Transaction, meterStop: real, hookOK: bool, now: int)
      requires hal.Valid() && meterStop == LastKnownMeter(tx)
      modifies hal.Writable()
      ensures hal.Valid() && fresh(hal.store.Footprint() - old(hal.store.Footprint()))
      ensures hal.View() == Announced(old(hal.View()), tx, row, hookOK, now)
    {
      hal.registry.ApplyStopTransaction(tx.chargerID, tx.connectorID, meterStop);
      var _ := hal.EnqueueHook(O.CompletedKind, row, hookOK, now);
    }

    method ForceCloseGhostTransaction(tx: Transaction, hookOK: bool, now: int)
      requires hal.Valid()
      modifies hal.Writable()
      ensures hal.Valid() && fresh(hal.store.Footprint() - old(hal.store.Footprint()))
      ensures hal.View() == GhostClosed(old(hal.View()), tx, hookOK, now)
    {
      var meterStop := tx.meterStart;
      if tx.meterStop.Some? {
        meterStop := tx.meterStop.value;
      }
      ghost var before := hal.View().table;
      var closed := hal.store.ForceCloseTransaction(tx.chargerID, tx.transactionID, meterStop, now);
      if closed.Failure? {
        ForeignCallChangesNothing(before, ForceClose(tx.chargerID, tx.transactionID, meterStop), now);
        return;
      }
      Announce(tx, closed.value, meterStop, hookOK, now);
    }

    method HydrateOpenTransaction(tx: Transaction)
      modifies hal.registry
      ensures hal.registry.chargers == A.Hydrated(old(hal.registry.chargers), tx)
    {
      hal.registry.ApplyStartTransaction(tx.chargerID, tx.connectorID, tx.transactionID, tx.meterStart);
      if tx.meterStop.Some? {
        hal.registry.ApplyMeterValue(tx.chargerID, tx.connectorID, Some(tx.transactionID), tx.meterStop.value);
      }
    }

    /** A refreshed, still open transaction: close it as a ghost or hydrate it. */
    method RecoverOpen(tx: Transaction, hookOK: bool, now: int) returns (stopping: bool)
      requires hal.Valid()
      modifies hal.Writable()
      ensures hal.Valid() && fresh(hal.store.Footprint() - old(hal.store.Footprint()))
      ensures stopping <==> !A.IsGhost(old(hal.View()).chargers, tx)
      ensures hal.View() == if stopping then old(hal.View()).(chargers := A.Hydrated(old(hal.View()).chargers, tx))
                            else GhostClosed(old(hal.View()), tx, hookOK, now)
    {
      var free := IsGhostAvailableTransaction(tx);
      if free {
        ForceCloseGhostTransaction(tx, hookOK, now);
      } else {
        HydrateOpenTransaction(tx);
      }
      stopping := !free;
    }

    /** One snapshotted transaction; `stopping` tells whether the charger must still be asked to stop it. */
    method RecoverOne(c: string, id: int, hookOK: bool, now: int) returns (stopping: bool)
      requires hal.Valid()
      modifies hal.Writable()
      ensures hal.Valid() && fresh(hal.store.Footprint() - old(hal.store.Footprint()))
      ensures hal.View() == RecoveredOne(old(hal.View()), c, id, hookOK, now)
      ensures stopping <==> B.OpenAt(old(hal.View()).table.rows, c, id)
                            && !A.IsGhost(old(hal.View()).chargers, old(hal.View()).table.rows[id])
    {
      stopping := false;
      var tx := hal.store.GetByTransactionID(c, id);
      if tx.Failure? || tx.value.stopTime.Some? {
        return;
      }
      stopping := RecoverOpen(tx.value, hookOK, now);
    }

    /** Recover one transaction and, if it has to stop, ask until it is answered or time is up. */
    method WorkOff(c: string, id: int, answers: nat -> Attempt, hookOK: bool, now: int, deadline: int)
                   returns (end: int)
      requires hal.Valid() && deadline <= now + B.MAX_RUNTIME
      modifies hal.Writable()
      ensures hal.Valid() && fresh(hal.store.Footprint() - old(hal.store.Footprint()))
      ensures hal.View() == RecoveredOne(old(hal.View()), c, id, hookOK, now) && now <= end
    {
      end := now;
      var stopping := RecoverOne(c, id, hookOK, now);
      if stopping {
        ghost var tx := old(hal.View()).table.rows[id];
        ghost var t := B.Task(c, [tx], 0, B.Stopping(tx, B.FIRST_PAUSE, now), deadline, map[]);
        var _, _, after, _ := RemoteStopAndUnlockWithRetry(answers, now, deadline, t);
        end := after;
      }
    }

    method RecoverOpenTransactions(c: string, boot: seq<Transaction>, answers: nat -> nat -> Attempt, hookOK: bool,
                                   start: int) returns (ghost works: seq<Work>)
      requires hal.Valid()
      modifies hal.Writable()
      ensures hal.Valid() && fresh(hal.store.Footprint() - old(hal.store.Footprint()))
      ensures WorksOn(works, boot) && InTime(works, start)
      ensures hal.View() == Recovered(old(hal.View()), c, works, hookOK)
    {
      var now, deadline := start, start + B.MAX_RUNTIME;
      works := [];
      for i := 0 to |boot|
        invariant hal.Valid() && fresh(hal.store.Footprint() - old(hal.store.Footprint()))
        invariant start <= now && WorksOn(works, boot[..i]) && InTime(works, start)
        invariant forall k :: 0 <= k < i ==> works[k].now <= now
        invariant hal.View() == Recovered(old(hal.View()), c, works, hookOK)
      {
        var id := boot[i].transactionID;
        OneMoreWork(works, boot, i, now, start);
        works := works + [Work(id, now)];
        now := WorkOff(c, id, answers(i), hookOK, now, deadline);
      }
      assert boot[..|boot|] == boot;
    }
  }
}
