/** The transaction engine as one state machine: OCPP handlers, limit-stop loops, the hook worker, boot
    recovery and frontend streams interleave on one transaction table. Every store call is one atomic
    step (the store's mutex); whatever a goroutine does between two store calls is a separate step. */
module Engine {
  import opened Wrappers
  import opened Rows
  import O = Outbox
  import R = Reconcile
  import S = Starts
  import L = LimitStop
  import B = Recovery
  import H = Streams

  /** Who still has a callback to enqueue: a charger's handler or a recovery goroutine. */
  datatype Owner = Handler(chargerID: string) | Recoverer(g: nat)

  /** The callback of the version of the row its owner has in hand. */
  datatype Owed = Owed(kind: O.Kind, tx: Transaction)

  datatype Engine = Engine(
    now: int,
    table: Table,
    outbox: O.Outbox,
    calls: map<string, S.Call>,     // StartTransaction calls between listing and decision
    owed: map<Owner, Owed>,         // calls and goroutines between store write and enqueue
    held: seq<O.Task>,              // the hook worker's batch, the task in hand first
    posted: bool,                   // the task in hand has been posted
    limits: L.Limits,
    recoveries: B.Recoveries,
    hub: H.Hub)

  datatype Event =
    | Tick(seconds: nat)
    | StartListed(chargerID: string, call: S.Call)
    | StartDecided(chargerID: string, single: bool, uuid: string, draws: Draws)
    | MeterValue(chargerID: string, named: Option<int>, meterWh: real)  // the ID the message or the registry names
    | StopCall(chargerID: string, id: int, meterWh: real)
    | Enqueue(owner: Owner, hookOK: bool)
    | PayCheck(chargerID: string, id: int, storeOK: bool)
    | LimitLoop(g: nat, storeOK: bool, accepted: bool)
    | ClaimTasks(ids: seq<int>)
    | Post
    | SetLimit(maxKWh: real)
    | Mark(outcome: O.Outcome, markOK: bool)
    | Reconcile(kind: O.Kind, id: int)
    | Boot(boot: B.BootEvent)
    | Stream(stream: H.HubEvent)
    | Restart                       // of the central system, over a store that survives

  const INIT := Engine(
    0, Table(1, map[]), O.Outbox(0, map[]), map[], map[], [], false,
    L.Limits(multiset{}, map[], 0, {}, {}, []), B.Recoveries({}, {}, map[], 0, []), H.Hub(multiset{}, map[], 0, map[]))

  /** The charger has no request outstanding, so its next message may be handled. */
  predicate Idle(s: Engine, c: string) { c !in s.calls && Handler(c) !in s.owed }

  /** May this event happen now? A goroutine that owes an enqueue does that first; a worker step needs its
      worker; the rest is up to the environment. */
  ghost predicate Enabled(s: Engine, e: Event) {
    match e
    case StartListed(c, call) => Idle(s, c) && S.Lists(call.open, s.table.rows, c)
    case StartDecided(c, _, _, _) => c in s.calls
    case MeterValue(c, _, _) => Idle(s, c)
    case StopCall(c, _, _) => Idle(s, c)
    case Enqueue(owner, _) => owner in s.owed
    case PayCheck(c, id, _) => L.Check(c, id) in s.limits.checks
    case LimitLoop(g, _, _) => g in s.limits.workers
    case ClaimTasks(ids) => s.held == [] && O.Distinct(ids) && O.ValidClaim(s.outbox.entries, O.SetOf(ids), s.now, 10)
    case Post => s.held != [] && !s.posted
    case SetLimit(_) => s.held != [] && s.posted && s.held[0].key.kind.StartKind?
    case Mark(outcome, _) => s.held != [] && (s.posted || outcome.Rejected?)   // a bad payload is never posted
    case Reconcile(kind, id) => id in s.table.rows && (kind.CompletedKind? ==> !s.table.rows[id].Open())
    case Boot(boot) =>
      B.Enabled(s.recoveries, s.table.rows, s.now, boot)
          && (B.Of(boot).Some? ==> Recoverer(B.Of(boot).value) !in s.owed)
    case _ => true
  }

  /** The store operation of an enabled event, if it makes one. */
  ghost function OpOf(s: Engine, e: Event): Option<Op>
    requires Enabled(s, e)
  {
    match e
    case StartDecided(c, single, uuid, draws) =>
      if S.DecisionOf(s.calls[c]).Fresh? then Some(Create(S.RequestOf(c, s.calls[c], single), uuid, draws)) else None
    case MeterValue(c, id, m) => if id.Some? then Some(LiveMeter(c, id.value, m)) else None
    case StopCall(c, id, m) => Some(Stop(c, id, m))
    case PayCheck(c, id, storeOK) => if storeOK then Some(CheckLimit(c, id)) else None
    case LimitLoop(g, storeOK, _) =>
      var w := s.limits.workers[g];
      if w.phase.Exhausted? && storeOK then Some(Release(w.chargerID, w.id)) else None
    case SetLimit(k) => Some(SetMaxKWh(s.held[0].key.transactionID, k))
    case Boot(boot) => B.BootOp(s.recoveries, boot)
    case _ => None
  }

  function ApplyOpt(t: Table, op: Option<Op>, now: int): Table {
    if op.Some? then Apply(t, op.value, now) else t
  }

  ghost function TableNext(s: Engine, e: Event): Table
    requires Enabled(s, e)
  {
    ApplyOpt(s.table, OpOf(s, e), s.now)
  }

  /** The transaction a StartTransaction call ends up with: the retried one or the new one. */
  ghost function StartedID(s: Engine, c: string, draws: Draws): Option<int>
    requires c in s.calls
  {
    match S.DecisionOf(s.calls[c])
    case Retry(tx) => Some(tx.transactionID)
    case Overlap(_) => None
    case Fresh => FirstFree(s.table.rows, draws)
  }

  /** The version of the row the call goes on with. */
  ghost function StartedRow(s: Engine, e: Event): Transaction
    requires Enabled(s, e) && e.StartDecided? && StartedID(s, e.chargerID, e.draws).Some?
  {
    var decision := S.DecisionOf(s.calls[e.chargerID]);
    if decision.Retry? then decision.tx else TableNext(s, e).rows[StartedID(s, e.chargerID, e.draws).value]
  }

  function Closing(rows: Rows, owed: map<Owner, Owed>, owner: Owner, c: string, id: int): map<Owner, Owed> {
    if Known(rows, c, id) then owed[owner := Owed(O.CompletedKind, rows[id])] else owed
  }

  ghost function OwedNext(s: Engine, e: Event): map<Owner, Owed>
    requires Enabled(s, e)
  {
    match e
    case StartDecided(c, _, _, draws) =>
      if StartedID(s, c, draws).Some? then s.owed[Handler(c) := Owed(O.StartKind, StartedRow(s, e))] else s.owed
    case StopCall(c, id, _) => Closing(TableNext(s, e).rows, s.owed, Handler(c), c, id)
    case Boot(Close(g, storeOK)) =>
      var tx := s.recoveries.tasks[g].phase.tx;
      if storeOK then Closing(TableNext(s, e).rows, s.owed, Recoverer(g), tx.chargerID, tx.transactionID) else s.owed
    case Enqueue(owner, _) => s.owed - {owner}
    case Restart => map[]
    case _ => s.owed
  }

  ghost function OutboxNext(s: Engine, e: Event): O.Outbox
    requires Enabled(s, e)
  {
    match e
    case Enqueue(owner, hookOK) =>
      var w := s.owed[owner];
      if hookOK && R.Acceptable(w.kind, w.tx) then O.Enqueue(s.outbox, O.Key(w.kind, w.tx.transactionID), s.now)
          else s.outbox
    case Reconcile(kind, id) => O.Enqueue(s.outbox, O.Key(kind, id), s.now)
    case ClaimTasks(ids) => s.outbox.(entries := O.Claim(s.outbox.entries, O.SetOf(ids)))
    case Mark(outcome, markOK) =>
      if markOK then s.outbox.(entries := O.Marked(s.outbox.entries, s.held[0], outcome, s.now)) else s.outbox
    case _ => s.outbox
  }

  ghost function HeldNext(s: Engine, e: Event): seq<O.Task>
    requires Enabled(s, e)
  {
    match e
    case ClaimTasks(ids) =>
      O.ClaimHolds(s.outbox.entries, ids, s.now);
      O.TasksOf(s.outbox.entries, ids)
    case Mark(_, _) => s.held[1..]
    case Restart => []
    case _ => s.held
  }

  function PostedNext(posted: bool, e: Event): bool {
    match e
    case Post => true
    case ClaimTasks(_) => false
    case Mark(_, _) => false
    case Restart => false
    case _ => posted
  }

  ghost function CallsNext(s: Engine, e: Event): map<string, S.Call> {
    match e
    case StartListed(c, call) => s.calls[c := call]
    case StartDecided(c, _, _, _) => s.calls - {c}
    case Restart => map[]
    case _ => s.calls
  }

  ghost function LimitsNext(s: Engine, e: Event): L.Limits
    requires Enabled(s, e)
  {
    match e
    case PayCheck(c, id, storeOK) => L.OnCheck(s.limits, s.table.rows, c, id, storeOK)
    case LimitLoop(g, storeOK, accepted) => L.OnWorker(s.limits, s.table.rows, g, s.now, storeOK, accepted)
    case Restart => L.Restarted(s.limits)
    case _ => if OpOf(s, e).Some? then L.OnWrite(s.limits, s.table.rows, OpOf(s, e).value) else s.limits
  }

  ghost function RecoveriesNext(s: Engine, e: Event): B.Recoveries
    requires Enabled(s, e)
  {
    if e.Boot? then B.BootNext(s.recoveries, s.table.rows, s.now, e.boot)
    else if e.Restart? then B.Restarted(s.recoveries) else s.recoveries
  }

  ghost function HubNext(s: Engine, e: Event): H.Hub
    requires Enabled(s, e)
  {
    if e.Stream? then H.HubNext(s.hub, s.table.rows, e.stream)
    else if e.Restart? then H.Restarted(s.hub)
    else if OpOf(s, e).Some? then H.OwePublication(s.hub, s.table.rows, OpOf(s, e).value)
    else s.hub
  }

  ghost function Step(s: Engine, e: Event): Engine {
    if !Enabled(s, e) then s
    else Engine(
      if e.Tick? then s.now + e.seconds else s.now,
      TableNext(s, e), OutboxNext(s, e), CallsNext(s, e), OwedNext(s, e), HeldNext(s, e),
      PostedNext(s.posted, e), LimitsNext(s, e), RecoveriesNext(s, e), HubNext(s, e))
  }

  ghost function Run(s: Engine, es: seq<Event>): Engine {
    if es == [] then s else Step(Run(s, es[..|es| - 1]), es[|es| - 1])
  }

  // ---------------------------------------------------------------- the invariant

  /** A callback of this kind belongs to a known transaction, and a completed one to a closed one. */
  predicate Callable(rows: Rows, kind: O.Kind, id: int) {
    id in rows && (kind.CompletedKind? ==> !rows[id].Open())
  }

  ghost predicate OutboxOK(rows: Rows, o: O.Outbox) {
    && O.OutboxInv(o) && 0 <= o.lastID
    && forall a :: a in o.entries ==> Callable(rows, o.entries[a].key.kind, o.entries[a].key.transactionID)
  }

  /** What is owed is owed for a version of a row. */
  ghost predicate OwedOK(rows: Rows, owed: map<Owner, Owed>) {
    forall w :: w in owed ==>
      && owed[w].tx.transactionID in rows && Evolves(owed[w].tx, rows[owed[w].tx.transactionID])
      && (owed[w].kind.CompletedKind? ==> !owed[w].tx.Open())
  }

  ghost predicate Inv(s: Engine) {
    && TableInv(s.table, s.now)
    && OutboxOK(s.table.rows, s.outbox)
    && OwedOK(s.table.rows, s.owed)
    && O.HeldOK(s.outbox.entries, s.held)
    && S.StartInv(s.table.rows, s.calls)
    && L.LimitInv(s.table.rows, s.limits)
    && B.RecoveryInv(s.table.rows, s.recoveries)
    && H.HubInv(s.table.rows, s.hub)
  }

  lemma TableStep(s: Engine, e: Event)
    requires TableInv(s.table, s.now)
    ensures TableInv(Step(s, e).table, Step(s, e).now) && Extends(s.table.rows, Step(s, e).table.rows)
    ensures s.now <= Step(s, e).now
  {
    if Enabled(s, e) {
      if OpOf(s, e).Some? { ApplyKeepsInv(s.table, OpOf(s, e).value, s.now, s.now); }
    }
  }

  lemma StartStep(s: Engine, e: Event)
    requires Inv(s) && Enabled(s, e)
    ensures S.StartInv(TableNext(s, e).rows, CallsNext(s, e))
  {
    if e.StartListed? {
      S.ListingKeepsInv(s.table.rows, s.calls, e.chargerID, e.call);
    } else if e.StartDecided? {
      if S.DecisionOf(s.calls[e.chargerID]).Fresh? {
        S.CreateKeepsStartInv(s.table, s.calls, e.chargerID, e.single, e.uuid, e.draws, s.now, s.now);
      }
    } else if OpOf(s, e).Some? {
      S.OtherOpKeepsStartInv(s.table, s.calls, OpOf(s, e).value, s.now, s.now);
    }
  }

  lemma LimitStep(s: Engine, e: Event)
    requires Inv(s) && Enabled(s, e)
    ensures L.LimitInv(TableNext(s, e).rows, LimitsNext(s, e))
  {
    if e.PayCheck? {
      L.CheckKeepsLimitInv(s.table, s.limits, e.chargerID, e.id, e.storeOK, s.now);
    } else if e.LimitLoop? {
      L.WorkerKeepsLimitInv(s.table, s.limits, e.g, s.now, e.storeOK, e.accepted);
    } else if e.Restart? {
      L.RestartKeepsLimitInv(s.table.rows, s.limits);
    } else if OpOf(s, e).Some? {
      L.WriteKeepsLimitInv(s.table, s.limits, OpOf(s, e).value, s.now);
    }
  }

  lemma RecoveryStep(s: Engine, e: Event)
    requires Inv(s) && Enabled(s, e)
    ensures B.RecoveryInv(TableNext(s, e).rows, RecoveriesNext(s, e))
  {
    if e.Boot? { B.BootStepKeepsInv(s.table.rows, s.recoveries, s.now, e.boot); }
    if OpOf(s, e).Some? {
      B.WriteKeepsRecoveryInv(s.table, RecoveriesNext(s, e), OpOf(s, e).value, s.now, s.now);
    }
  }

  lemma HubStep(s: Engine, e: Event)
    requires Inv(s) && Enabled(s, e)
    ensures H.HubInv(TableNext(s, e).rows, HubNext(s, e))
  {
    if e.Stream? { H.HubStepKeepsInv(s.table.rows, s.hub, e.stream); }
    if OpOf(s, e).Some? { H.WriteKeepsHubInv(s.table, s.hub, OpOf(s, e).value, s.now, s.now); }
  }

  // ---------------------------------------------------------------- callbacks

  lemma EnqueueKeepsOutboxOK(rows: Rows, o: O.Outbox, key: O.Key, now: int)
    requires OutboxOK(rows, o) && Callable(rows, key.kind, key.transactionID)
    ensures OutboxOK(rows, O.Enqueue(o, key, now))
  {
    O.EnqueueOnce(o, key, now);
  }

  lemma ExtendKeepsOutboxOK(rows: Rows, rows': Rows, o: O.Outbox)
    requires OutboxOK(rows, o) && Extends(rows, rows')
    ensures OutboxOK(rows', o)
  {}

  lemma OutboxStep(s: Engine, e: Event)
    requires TableInv(s.table, s.now) && OutboxOK(s.table.rows, s.outbox) && OwedOK(s.table.rows, s.owed)
    requires O.HeldOK(s.outbox.entries, s.held) && Enabled(s, e)
    ensures OutboxOK(TableNext(s, e).rows, OutboxNext(s, e))
  {
    TableStep(s, e);
    var rows := s.table.rows;
    if e.Enqueue? {
      EnqueueKeepsOutboxOK(rows, s.outbox, O.Key(s.owed[e.owner].kind, s.owed[e.owner].tx.transactionID), s.now);
    } else if e.Reconcile? {
      EnqueueKeepsOutboxOK(rows, s.outbox, O.Key(e.kind, e.id), s.now);
    } else if e.ClaimTasks? {
      O.ClaimKeepsOutboxInv(s.outbox, O.SetOf(e.ids), s.now);
    } else if e.Mark? && e.markOK {
      O.MarkKeepsOutboxInv(s.outbox, s.held, e.outcome, s.now);
    }
    ExtendKeepsOutboxOK(rows, TableNext(s, e).rows, OutboxNext(s, e));
  }

  lemma HeldStep(s: Engine, e: Event)
    requires O.OutboxInv(s.outbox) && 0 <= s.outbox.lastID && O.HeldOK(s.outbox.entries, s.held) && Enabled(s, e)
    ensures O.HeldOK(OutboxNext(s, e).entries, HeldNext(s, e))
  {
    if e.Enqueue? {
      O.EnqueueOnce(s.outbox, O.Key(s.owed[e.owner].kind, s.owed[e.owner].tx.transactionID), s.now);
    } else if e.Reconcile? {
      O.EnqueueOnce(s.outbox, O.Key(e.kind, e.id), s.now);
    } else if e.ClaimTasks? {
      O.ClaimHolds(s.outbox.entries, e.ids, s.now);
    } else if e.Mark? {
      O.MarkHolds(s.outbox.entries, s.held, e.outcome, e.markOK, s.now);
    }
  }

  lemma ExtendKeepsOwedOK(rows: Rows, rows': Rows, owed: map<Owner, Owed>)
    requires OwedOK(rows, owed) && Extends(rows, rows')
    ensures OwedOK(rows', owed)
  {}

  lemma StartOwes(s: Engine, e: Event)
    requires Inv(s) && Enabled(s, e) && e.StartDecided? && StartedID(s, e.chargerID, e.draws).Some?
    requires Extends(s.table.rows, TableNext(s, e).rows)
    ensures var tx := StartedRow(s, e);
            tx.transactionID == StartedID(s, e.chargerID, e.draws).value && tx.transactionID in TableNext(s, e).rows
            && Evolves(tx, TableNext(s, e).rows[tx.transactionID])
  {
    FirstFreeIsFree(s.table.rows, e.draws);
    var call := s.calls[e.chargerID];
    S.DecidePicks(call.open, call.connectorID, call.idTag, call.meterStart);
    assert S.CallOK(s.table.rows, e.chargerID, call);
  }

  lemma OwedStep(s: Engine, e: Event)
    requires Inv(s) && Enabled(s, e)
    ensures OwedOK(TableNext(s, e).rows, OwedNext(s, e))
  {
    TableStep(s, e);
    var rows' := TableNext(s, e).rows;
    ExtendKeepsOwedOK(s.table.rows, rows', s.owed);
    if e.StartDecided? {
      DecisionOwes(s, e);
    } else if e.StopCall? {
      StopOwes(s, e);
    } else if e.Boot? {
      RecoveryOwes(s, e);
    } else {
      OthersOweNothing(s, e);
    }
  }

  lemma OthersOweNothing(s: Engine, e: Event)
    requires Enabled(s, e) && !e.StartDecided? && !e.StopCall? && !e.Boot?
    ensures OwedNext(s, e).Keys <= s.owed.Keys && forall w :: w in OwedNext(s, e) ==> OwedNext(s, e)[w] == s.owed[w]
  {}

  lemma DecisionOwes(s: Engine, e: Event)
    requires Inv(s) && Enabled(s, e) && e.StartDecided?
    requires Extends(s.table.rows, TableNext(s, e).rows) && OwedOK(TableNext(s, e).rows, s.owed)
    ensures OwedOK(TableNext(s, e).rows, OwedNext(s, e))
  {
    if StartedID(s, e.chargerID, e.draws).Some? { StartOwes(s, e); }
  }

  lemma StopOwes(s: Engine, e: Event)
    requires Inv(s) && Enabled(s, e) && e.StopCall? && OwedOK(TableNext(s, e).rows, s.owed)
    ensures OwedOK(TableNext(s, e).rows, OwedNext(s, e))
  {
    ClosedByStop(s.table, Stop(e.chargerID, e.id, e.meterWh), s.now);
    ClosingOwes(TableNext(s, e).rows, s.owed, Handler(e.chargerID), e.chargerID, e.id);
  }

  lemma RecoveryOwes(s: Engine, e: Event)
    requires Inv(s) && Enabled(s, e) && e.Boot? && OwedOK(TableNext(s, e).rows, s.owed)
    ensures OwedOK(TableNext(s, e).rows, OwedNext(s, e))
  {
    if e.boot.Close? && e.boot.storeOK {
      var tx := s.recoveries.tasks[e.boot.g].phase.tx;
      ClosedByStop(s.table, ForceClose(tx.chargerID, tx.transactionID, LastKnownMeter(tx)), s.now);
      ClosingOwes(TableNext(s, e).rows, s.owed, Recoverer(e.boot.g), tx.chargerID, tx.transactionID);
    }
  }

  lemma ClosingOwes(rows: Rows, owed: map<Owner, Owed>, owner: Owner, c: string, id: int)
    requires OwedOK(rows, owed) && (Known(rows, c, id) ==> !rows[id].Open() && rows[id].transactionID == id)
    ensures OwedOK(rows, Closing(rows, owed, owner, c, id))
  {}

  lemma ClosedByStop(t: Table, op: Op, now: int)
    requires op.Stop? || op.ForceClose?
    requires forall id :: id in t.rows ==> t.rows[id].transactionID == id
    ensures Known(Apply(t, op, now).rows, op.chargerID, op.id) ==>
              !Apply(t, op, now).rows[op.id].Open() && Apply(t, op, now).rows[op.id].transactionID == op.id
  {}

  /** Every step of the engine, by anyone, keeps all of it. */
  lemma StepKeepsInv(s: Engine, e: Event)
    requires Inv(s)
    ensures Inv(Step(s, e))
  {
    if Enabled(s, e) {
      TableStep(s, e);
      OutboxStep(s, e);
      OwedStep(s, e);
      HeldStep(s, e);
      StartStep(s, e);
      LimitStep(s, e);
      RecoveryStep(s, e);
      HubStep(s, e);
    }
  }

  /** ... and so does every run, which moreover only extends the table. */
  lemma {:induction false} RunKeepsInv(s: Engine, es: seq<Event>)
    requires Inv(s)
    ensures Inv(Run(s, es)) && Extends(s.table.rows, Run(s, es).table.rows)
  {
    if es != [] {
      var mid := Run(s, es[..|es| - 1]);
      RunKeepsInv(s, es[..|es| - 1]);
      StepKeepsInv(mid, es[|es| - 1]);
      TableStep(mid, es[|es| - 1]);
    }
  }

  lemma InitInv()
    ensures Inv(INIT)
  {}
}
