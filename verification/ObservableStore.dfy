/** The publishing store wrapper (observableTransactionStore in internal/store/transaction_updates.go):
    write to the store, then publish if the write succeeded. */
module ObservableStore {
  import opened Wrappers
  import opened Rows
  import M = MemoryStore
  import U = TransactionUpdates
  import H = Streams

  class ObservableTransactionStore {
    const inner: M.MemoryStore
    const updates: U.TransactionUpdates

    ghost predicate Valid()
      reads inner, updates, updates.channels
    {
      inner.Valid() && updates.Valid()
    }

    ghost function Writable(): set<object>
      reads inner, updates
    {
      inner.Footprint() + {updates} + updates.channels
    }

    /** The whole effect of a wrapped operation: its row effect, and one publish exactly when it owes one. */
    twostate predicate WroteThenPublished(op: Op, now: int)
      reads inner, inner.transactions.Values, inner.outbox.Values, updates
    {
      && inner.TransactionTable() == Apply(old(inner.TransactionTable()), op, now)
      && inner.CallbackOutbox() == old(inner.CallbackOutbox())
      && updates.view == (match H.Publication(old(inner.TransactionTable()).rows, op)
                          case Some(id) => H.Published(old(updates.view), id)
                          case None => old(updates.view))
    }

    constructor (inner: M.MemoryStore, updates: U.TransactionUpdates)
      ensures this.inner == inner && this.updates == updates
    {
      this.inner, this.updates := inner, updates;
    }

    /** Publish, leaving the store alone. */
    method Notify(id: int)
      requires Valid()
      modifies updates`view, updates.channels
      ensures Valid()
      ensures updates.view == H.Published(old(updates.view), id)
      ensures inner.TransactionTable() == old(inner.TransactionTable())
                && inner.CallbackOutbox() == old(inner.CallbackOutbox())
    {
      updates.Publish(id);
    }

    /** The write of CreateTransaction, before its publish. */
    method Store(input: Request, uuid: string, draws: Draws, now: int) returns (r: Result<Transaction, M.Error>)
      requires Valid()
      modifies inner.Footprint()
      ensures Valid() && updates.view == old(updates.view)
      ensures inner.TransactionTable() == Apply(old(inner.TransactionTable()), Create(input, uuid, draws), now)
      ensures inner.CallbackOutbox() == old(inner.CallbackOutbox())
      ensures FirstFree(old(inner.TransactionTable()).rows, draws)
           == if r.Success? then Some(r.value.transactionID) else None
    {
      r := inner.CreateTransaction(input, uuid, draws, now);
    }

    method CreateTransaction(input: Request, uuid: string, draws: Draws, now: int)
                             returns (r: Result<Transaction, M.Error>)
      requires Valid()
      modifies Writable()
      ensures Valid() && WroteThenPublished(Create(input, uuid, draws), now)
      ensures r.Success? <==> FirstFree(old(inner.TransactionTable()).rows, draws).Some?
    {
      r := Store(input, uuid, draws, now);
      if r.Success? {
        Notify(r.value.transactionID);
      }
    }

    method UpdateLiveMeter(charger: string, id: int, meterWh: real, ghost now: int)
                           returns (r: Result<Transaction, M.Error>)
      requires Valid()
      modifies Writable()
      ensures Valid() && WroteThenPublished(LiveMeter(charger, id, meterWh), now)
      ensures r.Success? <==> Known(old(inner.TransactionTable()).rows, charger, id)
    {
      r := inner.UpdateLiveMeter(charger, id, meterWh, now);
      if r.Success? {
        Notify(id);
      }
    }

    method StopTransaction(charger: string, id: int, meterWh: real, now: int) returns (r: Result<Transaction, M.Error>)
      requires Valid()
      modifies Writable()
      ensures Valid() && WroteThenPublished(Stop(charger, id, meterWh), now)
      ensures r.Success? <==> Known(old(inner.TransactionTable()).rows, charger, id)
      ensures r.Success? ==> r.value == inner.TransactionTable().rows[id]
    {
      r := inner.StopTransaction(charger, id, meterWh, now);
      if r.Success? {
        Notify(id);
      }
    }

    method ForceCloseTransaction(charger: string, id: int, meterWh: real, now: int)
                                 returns (r: Result<Transaction, M.Error>)
      requires Valid()
      modifies Writable()
      ensures Valid() && WroteThenPublished(ForceClose(charger, id, meterWh), now)
      ensures r.Success? <==> Known(old(inner.TransactionTable()).rows, charger, id)
    {
      r := inner.ForceCloseTransaction(charger, id, meterWh, now);
      if r.Success? {
        Notify(id);
      }
    }

    method UpdateTransactionMaxKWh(id: int, maxKWh: real, ghost now: int)
      requires Valid()
      modifies Writable()
      ensures Valid() && WroteThenPublished(SetMaxKWh(id, maxKWh), now)
    {
      inner.UpdateTransactionMaxKWh(id, maxKWh, now);
      Notify(id);
    }

    method CheckAndMarkLimitStop(charger: string, id: int, ghost now: int) returns (claimed: bool)
      requires Valid()
      modifies Writable()
      ensures Valid() && WroteThenPublished(CheckLimit(charger, id), now)
      ensures var rows := old(inner.TransactionTable()).rows;
              claimed <==> Known(rows, charger, id) && Claimable(rows[id])
    {
      claimed := inner.CheckAndMarkLimitStop(charger, id, now);
      if claimed {
        Notify(id);
      }
    }

    method ReleaseLimitStopRequest(charger: string, id: int, ghost now: int)
      requires Valid()
      modifies Writable()
      ensures Valid() && WroteThenPublished(Release(charger, id), now)
    {
      inner.ReleaseLimitStopRequest(charger, id, now);
      Notify(id);
    }
  }
}
