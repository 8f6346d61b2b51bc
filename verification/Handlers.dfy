/** The OCPP handlers that move transactions (internal/ocpp16hal/hal.go): StartTransaction, MeterValues and
    StopTransaction as sections 4.8, 4.7 and 4.10 of OCPP 1.6 describe them, over the store, the callback
    outbox and the live registry. First on values, then the handlers themselves. */
module Handlers {
  import opened Wrappers
  import opened Rows
  import O = Outbox
  import R = Reconcile
  import S = Starts
  import G = Registry
  import M = MemoryStore

  datatype System = System(table: Table, outbox: O.Outbox, chargers: G.Chargers)

  /** What the charger is answered; `Refused` is an error instead of a confirmation. */
  datatype Reply = Accepted(id: int) | Blocked | Confirmed | Refused

  datatype StartRequest = StartRequest(connectorID: int, idTag: string, meterStart: real)

  /** `open` is the store's listing; `hookOK`: the callback's target URL is configured and the outbox
      accepts it. */
  function HandleStart(sys: System, c: string, req: StartRequest, open: seq<Transaction>,
                       single: bool, uuid: string, draws: Draws, hookOK: bool, now: int): (System, Reply) {
    Resolved(sys.(chargers := G.Touched(sys.chargers, c)), c, req,
             S.Decide(open, req.connectorID, req.idTag, req.meterStart), single, uuid, draws, hookOK, now)
  }

  function Resolved(sys: System, c: string, req: StartRequest, decision: S.Decision,
                    single: bool, uuid: string, draws: Draws, hookOK: bool, now: int): (System, Reply) {
    match decision
    case Overlap(_) => (sys, Blocked)
    case Retry(tx) => Started(sys, c, req, tx.transactionID, hookOK, now)
    case Fresh => CreatedAndStarted(sys, c, req, single, uuid, draws, hookOK, now)
  }

  function CreatedAndStarted(sys: System, c: string, req: StartRequest, single: bool, uuid: string, draws: Draws,
                             hookOK: bool, now: int): (System, Reply) {
    match FirstFree(sys.table.rows, draws)
    case None => (sys, Blocked)
    case Some(id) =>
      var created := Apply(sys.table, Create(Request(c, req.connectorID, req.meterStart, req.idTag, single), uuid,
          draws), now);
      Started(sys.(table := created), c, req, id, hookOK, now)
  }

  function Started(sys: System, c: string, req: StartRequest, id: int, hookOK: bool, now: int): (System, Reply) {
    var live := sys.(chargers := G.AfterStart(sys.chargers, c, req.connectorID, id, req.meterStart));
    if hookOK then (live.(outbox := O.Enqueue(sys.outbox, O.Key(O.StartKind, id), now)), Accepted(id))
    else (live, Refused)
  }

  /** The transaction a meter value is booked on: the one it names, else the connector's. */
  function BookedOn(chargers: G.Chargers, c: string, connector: int, named: Option<int>): Option<int> {
    if named.Some? && named.value > 0 then named else G.TransactionOn(chargers, c, connector)
  }

  /** UpdateLiveMeter and, if it succeeds, the limit check it owes. */
  function MeteredAndChecked(t: Table, c: string, id: int, meterWh: real, now: int): Table {
    if Known(t.rows, c, id) then Apply(Apply(t, LiveMeter(c, id, meterWh), now), CheckLimit(c, id), now) else t
  }

  /** `extracted` is the energy reading found in the message, if any. */
  function HandleMeter(sys: System, c: string, connector: int, named: Option<int>, extracted: Option<real>,
                       now: int): System {
    var touched := sys.(chargers := G.Touched(sys.chargers, c));
    if extracted.None? then touched
    else Booked(touched, c, connector, BookedOn(touched.chargers, c, connector, named), extracted.value, now)
  }

  function Booked(sys: System, c: string, connector: int, id: Option<int>, meterWh: real, now: int): System {
    var live := sys.(chargers := G.AfterMeter(sys.chargers, c, connector, id, meterWh));
    if id.None? then live else live.(table := MeteredAndChecked(sys.table, c, id.value, meterWh, now))
  }

  function HandleStop(sys: System, c: string, id: int, meterStop: real, hookOK: bool, now: int): (System, Reply) {
    var touched := sys.(chargers := G.Touched(sys.chargers, c));
    if !Known(sys.table.rows, c, id) then (touched, Refused)
    else
      var t := Apply(sys.table, Stop(c, id, meterStop), now);
      Completed(touched.(table := t), c, t.rows[id], meterStop, hookOK, now)
  }

  /** The callback comes first: if it cannot be enqueued the registry is not told. */
  function Completed(sys: System, c: string, tx: Transaction, meterStop: real, hookOK: bool, now: int)
    : (System, Reply)
  {
    if !hookOK || !R.CompletedOK(tx) then (sys, Refused)
    else
      (sys.(outbox := O.Enqueue(sys.outbox, O.Key(O.CompletedKind, tx.transactionID), now),
            chargers := G.AfterStop(sys.chargers, c, tx.connectorID, meterStop)), Confirmed)
  }

  /** The central system's handlers over the real store and registry. */
  class HAL {
    const store: M.MemoryStore
    const registry: G.Registry

    ghost predicate Valid()
      reads store
    {
      store.Valid()
    }

    ghost function Writable(): set<object>
      reads store
    {
      store.Footprint() + {registry}
    }

    ghost function View(): System
      reads store, store.transactions.Values, store.outbox.Values, registry
    {
      System(store.TransactionTable(), store.CallbackOutbox(), registry.chargers)
    }

    constructor (store: M.MemoryStore, registry: G.Registry)
      ensures this.store == store && this.registry == registry
    {
      this.store, this.registry := store, registry;
    }

    /** EnqueueStartTransaction / EnqueueCompletedTransaction of the hook manager. */
    method EnqueueHook(kind: O.Kind, tx: Transaction, hookOK: bool, now: int) returns (ok: bool)
      requires Valid()
      modifies store.Footprint()
      ensures Valid() && fresh(store.Footprint() - old(store.Footprint()))
      ensures ok <==> hookOK && R.Acceptable(kind, tx)
      ensures View() == if ok then old(View()).(outbox := O.Enqueue(old(View()).outbox, O.Key(kind, tx.transactionID),
                now)) else old(View())
    {
      if !hookOK {
        return false;
      }
      if kind.CompletedKind? && !R.CompletedOK(tx) {
        return false;
      }
      store.EnqueueCallback(O.Key(kind, tx.transactionID), now);
      ok := true;
    }

    method OnStartTransaction(c: string, req: StartRequest, single: bool, uuid: string, draws: Draws, hookOK: bool,
                              now: int)
      returns (reply: Reply, ghost open: seq<Transaction>)
      requires Valid()
      modifies Writable()
      ensures Valid() && fresh(store.Footprint() - old(store.Footprint()))
      ensures S.Lists(open, old(View()).table.rows, c)
      ensures (View(), reply) == HandleStart(old(View()), c, req, open, single, uuid, draws, hookOK, now)
    {
      var decision;
      decision, open := ListAndExamine(c, req);
      reply := Resolve(c, req, decision, single, uuid, draws, hookOK, now);
    }

    method TouchAndList(c: string) returns (listed: seq<Transaction>)
      requires Valid()
      modifies registry
      ensures View() == old(View()).(chargers := G.Touched(old(View()).chargers, c))
      ensures S.Lists(listed, old(View()).table.rows, c)
    {
      registry.Touch(c);
      listed := store.ListOpenTransactionsByCharger(c);
    }

    method ListAndExamine(c: string, req: StartRequest) returns (d: S.Decision, ghost open: seq<Transaction>)
      requires Valid()
      modifies registry
      ensures View() == old(View()).(chargers := G.Touched(old(View()).chargers, c))
      ensures S.Lists(open, old(View()).table.rows, c)
      ensures d == S.Decide(open, req.connectorID, req.idTag, req.meterStart)
    {
      var listed := TouchAndList(c);
      open := listed;
      d := Examine(listed, req);
    }

    method Resolve(c: string, req: StartRequest, decision: S.Decision, single: bool, uuid: string, draws: Draws,
                   hookOK: bool, now: int)
      returns (reply: Reply)
      requires Valid()
      modifies Writable()
      ensures Valid() && fresh(store.Footprint() - old(store.Footprint()))
      ensures (View(), reply) == Resolved(old(View()), c, req, decision, single, uuid, draws, hookOK, now)
    {
      match decision {
        case Overlap(_) => reply := Blocked;
        case Retry(existing) => reply := FinishStart(c, req, existing, hookOK, now);
        case Fresh => reply := CreateAndFinish(c, req, single, uuid, draws, hookOK, now);
      }
    }

    /** The handler's loop over the charger's open transactions. */
    method Examine(listed: seq<Transaction>, req: StartRequest) returns (d: S.Decision)
      ensures d == S.Decide(listed, req.connectorID, req.idTag, req.meterStart)
    {
      for i := 0 to |listed|
        invariant S.Decide(listed, req.connectorID, req.idTag, req.meterStart)
               == S.Decide(listed[i..], req.connectorID, req.idTag, req.meterStart)
      {
        var existing := listed[i];
        assert listed[i..][1..] == listed[i + 1..];
        if existing.connectorID != req.connectorID {
          continue;
        }
        if !S.SameStart(existing, req.idTag, req.meterStart) {
          return S.Overlap(existing);
        }
        return S.Retry(existing);
      }
      d := S.Fresh;
    }

    method CreateAndFinish(c: string, req: StartRequest, single: bool, uuid: string, draws: Draws, hookOK: bool,
                           now: int) returns (reply: Reply)
      requires Valid()
      modifies Writable()
      ensures Valid() && fresh(store.Footprint() - old(store.Footprint()))
      ensures (View(), reply) == CreatedAndStarted(old(View()), c, req, single, uuid, draws, hookOK, now)
    {
      var created := store.CreateTransaction(Request(c, req.connectorID, req.meterStart, req.idTag, single), uuid,
          draws, now);
      if created.Failure? {
        reply := Blocked;
      } else {
        reply := FinishStart(c, req, created.value, hookOK, now);
      }
    }

    /** The common tail: note the transaction in the registry and enqueue its start callback. */
    method FinishStart(c: string, req: StartRequest, tx: Transaction, hookOK: bool, now: int) returns (reply: Reply)
      requires Valid()
      modifies Writable()
      ensures Valid() && fresh(store.Footprint() - old(store.Footprint()))
      ensures (View(), reply) == Started(old(View()), c, req, tx.transactionID, hookOK, now)
    {
      registry.ApplyStartTransaction(c, req.connectorID, tx.transactionID, req.meterStart);
      var ok := EnqueueHook(O.StartKind, tx, hookOK, now);
      reply := if ok then Accepted(tx.transactionID) else Refused;
    }

    method OnMeterValues(c: string, connector: int, named: Option<int>, extracted: Option<real>, now: int)
                         returns (claimed: bool)
      requires Valid()
      modifies Writable()
      ensures Valid() && fresh(store.Footprint() - old(store.Footprint()))
      ensures View() == HandleMeter(old(View()), c, connector, named, extracted, now)
    {
      claimed := false;
      registry.Touch(c);
      if extracted.Some? {
        var id := None;
        if named.Some? && named.value > 0 {
          id := named;
        } else {
          id := registry.TransactionIDForConnector(c, connector);
        }
        claimed := Book(c, connector, id, extracted.value, now);
      }
    }

    method Book(c: string, connector: int, id: Option<int>, meterWh: real, now: int) returns (claimed: bool)
      requires Valid()
      modifies Writable()
      ensures Valid() && store.Footprint() == old(store.Footprint())
      ensures View() == Booked(old(View()), c, connector, id, meterWh, now)
    {
      claimed := false;
      registry.ApplyMeterValue(c, connector, id, meterWh);
      if id.Some? {
        claimed := BookMeter(c, id.value, meterWh, now);
      }
    }

    method BookMeter(c: string, id: int, meterWh: real, now: int) returns (claimed: bool)
      requires Valid()
      modifies store.transactions.Values
      ensures Valid() && store.Footprint() == old(store.Footprint())
      ensures View() == old(View()).(table := MeteredAndChecked(old(View()).table, c, id, meterWh, now))
      ensures claimed <==> Known(old(View()).table.rows, c, id)
                           && Claimable(Metered(old(View()).table.rows[id], meterWh))
    {
      ghost var before := View().table;
      claimed := false;
      var r := store.UpdateLiveMeter(c, id, meterWh, now);
      if r.Success? {
        claimed := store.CheckAndMarkLimitStop(c, id, now);
      } else {
        ForeignCallChangesNothing(before, LiveMeter(c, id, meterWh), now);
      }
    }

    method StoreStop(c: string, id: int, meterStop: real, now: int) returns (r: Result<Transaction, M.Error>)
      requires Valid()
      modifies store.transactions.Values
      ensures Valid() && store.Footprint() == old(store.Footprint())
      ensures r.Success? <==> Known(old(View()).table.rows, c, id)
      ensures r.Failure? ==> View() == old(View())
      ensures r.Success? ==>
                View() == old(View()).(table := Apply(old(View()).table, Stop(c, id, meterStop), now))
                && r.value == View().table.rows[id]
    {
      ghost var before := View().table;
      r := store.StopTransaction(c, id, meterStop, now);
      if r.Failure? { ForeignCallChangesNothing(before, Stop(c, id, meterStop), now); }
    }

    method OnStopTransaction(c: string, id: int, meterStop: real, hookOK: bool, now: int) returns (reply: Reply)
      requires Valid()
      modifies Writable()
      ensures Valid() && fresh(store.Footprint() - old(store.Footprint()))
      ensures (View(), reply) == HandleStop(old(View()), c, id, meterStop, hookOK, now)
    {
      registry.Touch(c);
      var r := StoreStop(c, id, meterStop, now);
      if r.Failure? {
        return Refused;
      }
      reply := Complete(c, r.value, meterStop, hookOK, now);
    }

    method Complete(c: string, tx: Transaction, meterStop: real, hookOK: bool, now: int) returns (reply: Reply)
      requires Valid()
      modifies Writable()
      ensures Valid() && fresh(store.Footprint() - old(store.Footprint()))
      ensures (View(), reply) == Completed(old(View()), c, tx, meterStop, hookOK, now)
    {
      var ok := EnqueueHook(O.CompletedKind, tx, hookOK, now);
      if !ok {
        return Refused;
      }
      registry.ApplyStopTransaction(c, tx.connectorID, meterStop);
      reply := Confirmed;
    }
  }
}
