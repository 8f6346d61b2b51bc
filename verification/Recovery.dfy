/** Boot recovery (internal/ocpp16hal/recovery.go): when a charger boots, the transactions it left open
    are snapshotted once and worked off by one goroutine, closed if the connector is already free and
    asked to stop otherwise. */
module Recovery {
  import opened Wrappers
  import opened Rows
  import opened Starts

  const BOOT_DELAY := 10
  const MAX_RUNTIME := 300
  const FIRST_PAUSE := 2
  const MAX_PAUSE := 60

  datatype Phase =
    | Asleep(wakeAt: int)
    | Next                                              // about to refresh the next snapshotted transaction
    | Closing(tx: Transaction)                          // judged a ghost from this version, not yet closed
    | Stopping(tx: Transaction, pause: int, until: int) // asking the charger to stop it
    | Unlocking(tx: Transaction, pause: int)            // ... and, the stop answered, to unlock the connector

  /** One recovery goroutine. `atBoot` is ghost: the table at the snapshot. */
  datatype Task = Task(chargerID: string, boot: seq<Transaction>, done: nat, phase: Phase, deadline: int, atBoot: Rows)

  /** Ghost history: what recovery did, to which transaction, from which snapshot. */
  datatype Act = ForceClosed(chargerID: string, id: int, atBoot: Rows)
      | StopSent(chargerID: string, id: int, atBoot: Rows)

  datatype Recoveries = Recoveries(
    running: set<string>,      // bootRecoveryRunning
    listing: set<string>,      // handlers between taking the flag and having the snapshot
    tasks: map<nat, Task>,
    nextTask: nat,
    acts: seq<Act>)

  datatype BootEvent =
    | Schedule(chargerID: string)
    | Snapshot(chargerID: string, open: seq<Transaction>, storeOK: bool)
    | Wake(g: nat)
    | Refresh(g: nat, readOK: bool, ghost_: bool)
    | Close(g: nat, storeOK: bool)
    | Ask(g: nat, answered: bool)
    | Unlock(g: nat, answered: bool)
    | Finish(g: nat)

  /** Is this event enabled? Snapshots are listings of the store. */
  ghost predicate Enabled(s: Recoveries, rows: Rows, now: int, e: BootEvent) {
    match e
    case Schedule(_) => true
    case Snapshot(c, open, _) => c in s.listing && Lists(open, rows, c)
    case Wake(g) => g in s.tasks && s.tasks[g].phase.Asleep? && now >= s.tasks[g].phase.wakeAt
    case Refresh(g, _, _) => g in s.tasks && s.tasks[g].phase.Next? && s.tasks[g].done < |s.tasks[g].boot|
    case Close(g, _) => g in s.tasks && s.tasks[g].phase.Closing?
    case Ask(g, _) => g in s.tasks && s.tasks[g].phase.Stopping?
        && (now >= s.tasks[g].phase.until || now >= s.tasks[g].deadline)
    case Unlock(g, _) => g in s.tasks && s.tasks[g].phase.Unlocking?
    case Finish(g) => g in s.tasks && s.tasks[g].phase.Next? && s.tasks[g].done == |s.tasks[g].boot|
  }

  function Skip(t: Task): Task { t.(done := t.done + 1, phase := Next) }

  /** After a failed call: pause, twice as long every time, at most a minute. */
  function Paused(t: Task, now: int): Task
    requires t.phase.Stopping? || t.phase.Unlocking?
  {
    var p := t.phase.pause;
    t.(phase := Stopping(t.phase.tx, if 2 * p > MAX_PAUSE then MAX_PAUSE else 2 * p, now + p))
  }

  /** One RemoteStop, or the end if time is up. */
  function AskNext(t: Task, now: int, answered: bool): Task
    requires t.phase.Stopping?
  {
    if now >= t.deadline then Skip(t)
    else if answered then t.(phase := Unlocking(t.phase.tx, t.phase.pause))
    else Paused(t, now)
  }

  /** One UnlockConnector. */
  function UnlockNext(t: Task, now: int, answered: bool): Task
    requires t.phase.Unlocking?
  {
    if answered then Skip(t) else Paused(t, now)
  }

  function WithTask(s: Recoveries, g: nat, t: Task): Recoveries { s.(tasks := s.tasks[g := t]) }

  /** The store operation of an enabled event. */
  ghost function BootOp(s: Recoveries, e: BootEvent): Option<Op>
    requires e.Close? ==> e.g in s.tasks && s.tasks[e.g].phase.Closing?
  {
    match e
    case Close(g, storeOK) =>
      var tx := s.tasks[g].phase.tx;
      if storeOK then Some(ForceClose(tx.chargerID, tx.transactionID, LastKnownMeter(tx))) else None
    case _ => None
  }

  ghost function BootNext(s: Recoveries, rows: Rows, now: int, e: BootEvent): Recoveries
    requires Enabled(s, rows, now, e)
  {
    match e
    case Schedule(c) =>
      if c in s.running then s else s.(running := s.running + {c}, listing := s.listing + {c})
    case Snapshot(c, open, storeOK) =>
      var listed := s.(listing := s.listing - {c});
      if !storeOK || open == [] then listed.(running := listed.running - {c})
      else
        listed.(tasks := listed.tasks[s.nextTask := Task(c, open, 0, Asleep(now + BOOT_DELAY), 0, rows)],
                nextTask := s.nextTask + 1)
    case Wake(g) => WithTask(s, g, s.tasks[g].(phase := Next, deadline := now + MAX_RUNTIME))
    case Refresh(g, readOK, isGhost) =>
      var t := s.tasks[g];
      var id := t.boot[t.done].transactionID;
      if !readOK || !Known(rows, t.chargerID, id) || !rows[id].Open() then WithTask(s, g, Skip(t))
      else if isGhost then WithTask(s, g, t.(phase := Closing(rows[id])))
      else WithTask(s, g, t.(phase := Stopping(rows[id], FIRST_PAUSE, now)))
    case Close(g, storeOK) =>
      var t := s.tasks[g];
      var after := WithTask(s, g, Skip(t));
      if storeOK then after.(acts := s.acts + [ForceClosed(t.chargerID, t.phase.tx.transactionID, t.atBoot)]) else after
    case Ask(g, answered) =>
      var t := s.tasks[g];
      var asked :=
        if now >= t.deadline then s
        else s.(acts := s.acts + [StopSent(t.chargerID, t.phase.tx.transactionID, t.atBoot)]);
      WithTask(asked, g, AskNext(t, now, answered))
    case Unlock(g, answered) => WithTask(s, g, UnlockNext(s.tasks[g], now, answered))
    case Finish(g) => s.(tasks := s.tasks - {g}, running := s.running - {s.tasks[g].chargerID})
  }

  // ---------------------------------------------------------------- the invariant

  /** A task only knows transactions that were open, and its charger's, in its snapshot. */
  ghost predicate TaskOK(rows: Rows, t: Task) {
    && Extends(t.atBoot, rows)
    && t.done <= |t.boot|
    && (forall i :: 0 <= i < |t.boot| ==> OpenAt(t.atBoot, t.chargerID, t.boot[i].transactionID))
    && (t.phase.Closing? || t.phase.Stopping? || t.phase.Unlocking? ==>
          t.done < |t.boot| && t.phase.tx.transactionID == t.boot[t.done].transactionID
          && t.phase.tx.chargerID == t.chargerID)
  }

  predicate OpenAt(rows: Rows, charger: string, id: int) {
    id in rows && rows[id].Open() && rows[id].chargerID == charger
  }

  ghost predicate HasTask(s: Recoveries, c: string) {
    exists g :: g in s.tasks && s.tasks[g].chargerID == c
  }

  ghost predicate RecoveryInv(rows: Rows, s: Recoveries) {
    && (forall g :: g in s.tasks ==> g < s.nextTask && TaskOK(rows, s.tasks[g]))
    && (forall g, h :: g in s.tasks && h in s.tasks && s.tasks[g].chargerID == s.tasks[h].chargerID ==> g == h)
    && (forall c :: c in s.running <==> c in s.listing || HasTask(s, c))
    && (forall g :: g in s.tasks ==> s.tasks[g].chargerID !in s.listing)
    && (forall i :: 0 <= i < |s.acts| ==> OpenAt(s.acts[i].atBoot, s.acts[i].chargerID, s.acts[i].id))
  }

  lemma {:induction false} ExtendsTransitive(a: Rows, b: Rows, c: Rows)
    requires Extends(a, b) && Extends(b, c)
    ensures Extends(a, c)
  {}

  lemma WriteKeepsRecoveryInv(t: Table, s: Recoveries, op: Op, before: int, now: int)
    requires TableInv(t, before) && before <= now && RecoveryInv(t.rows, s)
    ensures RecoveryInv(Apply(t, op, now).rows, s)
  {
    ApplyKeepsInv(t, op, before, now);
    var rows' := Apply(t, op, now).rows;
    forall g | g in s.tasks ensures TaskOK(rows', s.tasks[g]) {
      ExtendsTransitive(s.tasks[g].atBoot, t.rows, rows');
    }
  }

  /** Changing one task in place, without renaming its charger. */
  lemma TaskStepKeepsInv(rows: Rows, s: Recoveries, g: nat, t: Task, acts: seq<Act>)
    requires RecoveryInv(rows, s) && g in s.tasks
    requires TaskOK(rows, t) && t.chargerID == s.tasks[g].chargerID
    requires forall i :: 0 <= i < |acts| ==> OpenAt(acts[i].atBoot, acts[i].chargerID, acts[i].id)
    ensures RecoveryInv(rows, WithTask(s, g, t).(acts := acts))
  {
    var s' := WithTask(s, g, t).(acts := acts);
    forall c ensures HasTask(s', c) <==> HasTask(s, c) {
      if HasTask(s, c) { var h :| h in s.tasks && s.tasks[h].chargerID == c; assert s'.tasks[h].chargerID == c; }
    }
  }

  lemma SameTasksSameHolders(s: Recoveries, s': Recoveries, c: string)
    requires forall g :: g in s.tasks && s.tasks[g].chargerID != c ==> g in s'.tasks && s'.tasks[g] == s.tasks[g]
    ensures forall x :: x != c && HasTask(s, x) ==> HasTask(s', x)
  {
    forall x | x != c && HasTask(s, x) ensures HasTask(s', x) {
      var g :| g in s.tasks && s.tasks[g].chargerID == x;
      assert s'.tasks[g].chargerID == x;
    }
  }

  lemma ScheduleKeepsInv(rows: Rows, s: Recoveries, c: string, now: int)
    requires RecoveryInv(rows, s)
    ensures RecoveryInv(rows, BootNext(s, rows, now, Schedule(c)))
  {
    var s' := BootNext(s, rows, now, Schedule(c));
    assert forall x :: HasTask(s', x) <==> HasTask(s, x);
  }

  /** Only the handler that took the flag lists, so no second goroutine of this charger exists. */
  lemma SnapshotKeepsInv(rows: Rows, s: Recoveries, now: int, c: string, open: seq<Transaction>, storeOK: bool)
    requires RecoveryInv(rows, s) && Enabled(s, rows, now, Snapshot(c, open, storeOK))
    ensures RecoveryInv(rows, BootNext(s, rows, now, Snapshot(c, open, storeOK)))
  {
    if storeOK && open != [] {
      NewTaskKeepsInv(rows, s, now, c, open);
    } else {
      var s' := BootNext(s, rows, now, Snapshot(c, open, storeOK));
      assert forall x :: HasTask(s', x) <==> HasTask(s, x);
    }
  }

  lemma NewTaskKeepsInv(rows: Rows, s: Recoveries, now: int, c: string, open: seq<Transaction>)
    requires RecoveryInv(rows, s) && Enabled(s, rows, now, Snapshot(c, open, true)) && open != []
    ensures RecoveryInv(rows, BootNext(s, rows, now, Snapshot(c, open, true)))
  {
    var s' := BootNext(s, rows, now, Snapshot(c, open, true));
    assert !HasTask(s, c);
    SameTasksSameHolders(s, s', c);
    SameTasksSameHolders(s', s, c);
    assert s'.tasks[s.nextTask].chargerID == c;
    assert TaskOK(rows, s'.tasks[s.nextTask]);
    forall g | g in s.tasks ensures s'.tasks[g] == s.tasks[g] && s.tasks[g].chargerID != c {
      assert TaskOK(rows, s.tasks[g]);
    }
  }

  lemma FinishKeepsInv(rows: Rows, s: Recoveries, now: int, g: nat)
    requires RecoveryInv(rows, s) && Enabled(s, rows, now, Finish(g))
    ensures RecoveryInv(rows, BootNext(s, rows, now, Finish(g)))
  {
    var c := s.tasks[g].chargerID;
    var s' := BootNext(s, rows, now, Finish(g));
    SameTasksSameHolders(s, s', c);
    SameTasksSameHolders(s', s, c);
    assert !HasTask(s', c);
  }

  /** The steps of a goroutine at work. */
  lemma WorkKeepsInv(rows: Rows, s: Recoveries, now: int, e: BootEvent)
    requires RecoveryInv(rows, s) && Enabled(s, rows, now, e)
    requires e.Wake? || e.Refresh? || e.Close? || e.Ask? || e.Unlock?
    requires forall id :: id in rows ==> rows[id].transactionID == id
    ensures RecoveryInv(rows, BootNext(s, rows, now, e))
  {
    var s' := BootNext(s, rows, now, e);
    assert TaskOK(rows, s.tasks[e.g]);
    assert TaskOK(rows, s'.tasks[e.g]);
    assert s' == WithTask(s, e.g, s'.tasks[e.g]).(acts := s'.acts);
    TaskStepKeepsInv(rows, s, e.g, s'.tasks[e.g], s'.acts);
  }

  lemma BootStepKeepsInv(rows: Rows, s: Recoveries, now: int, e: BootEvent)
    requires RecoveryInv(rows, s) && Enabled(s, rows, now, e)
    requires forall id :: id in rows ==> rows[id].transactionID == id
    ensures RecoveryInv(rows, BootNext(s, rows, now, e))
  {
    match e
    case Schedule(c) => ScheduleKeepsInv(rows, s, c, now);
    case Snapshot(c, open, storeOK) => SnapshotKeepsInv(rows, s, now, c, open, storeOK);
    case Finish(g) => FinishKeepsInv(rows, s, now, g);
    case _ => WorkKeepsInv(rows, s, now, e);
  }

  /** A restart of the central system: the goroutines are gone. */
  function Restarted(s: Recoveries): Recoveries {
    s.(running := {}, listing := {}, tasks := map[])
  }

  /** The goroutine an event is a step of. */
  function Of(e: BootEvent): Option<nat> {
    match e
    case Schedule(_) => None
    case Snapshot(_, _, _) => None
    case _ => Some(e.g)
  }
}
