/** The in-memory store (internal/store/memory.go, limit_stop_memory.go, outbox_memory.go and
    callback_reconcile_memory.go): maps of row objects updated in place. Each method is proved to have the
    row effect of Rows and Outbox, and to hand out copies, never the stored rows. */
module MemoryStore {
  import opened Wrappers
  import opened Rows
  import O = Outbox
  import R = Reconcile
  import S = Starts

  datatype Error = NotFound | NoUniqueID

  class TransactionRow {
    const rowID: int
    const uuid: string
    const chargerID: string
    const connectorID: int
    const meterStart: real
    const startTime: int
    const idTag: string
    const transactionID: int
    const isSingleSession: bool
    var meterStop: Option<real>
    var totalConsumption: Option<real>
    var stopTime: Option<int>
    var maxKWh: Option<real>
    var limitStopRequested: bool

    constructor (tx: Transaction)
      ensures Clone() == tx
    {
      rowID, uuid, chargerID, connectorID := tx.rowID, tx.uuid, tx.chargerID, tx.connectorID;
      meterStart, startTime, idTag := tx.meterStart, tx.startTime, tx.idTag;
      transactionID, isSingleSession := tx.transactionID, tx.isSingleSession;
      meterStop, totalConsumption, stopTime := tx.meterStop, tx.totalConsumption, tx.stopTime;
      maxKWh, limitStopRequested := tx.maxKWh, tx.limitStopRequested;
    }

    /** cloneTransaction: a value, which no later update of the row reaches. */
    function Clone(): Transaction
      reads this
    {
      Transaction(rowID, uuid, chargerID, connectorID, meterStart, meterStop, totalConsumption,
                  startTime, stopTime, idTag, transactionID, isSingleSession, maxKWh, limitStopRequested)
    }
  }

  class CallbackRow {
    const id: int
    const key: O.Key
    const maxRetries: nat
    var status: O.Status
    var retries: nat
    var nextRetryAt: int

    constructor (id: int, e: O.Entry)
      ensures Value() == e && this.id == id
    {
      this.id := id;
      key, maxRetries := e.key, e.maxRetries;
      status, retries, nextRetryAt := e.status, e.retries, e.nextRetryAt;
    }

    function Value(): O.Entry
      reads this
    {
      O.Entry(key, status, retries, maxRetries, nextRetryAt)
    }
  }

  function TaskIDs(tasks: seq<O.Task>): set<int> { set i | 0 <= i < |tasks| :: tasks[i].id }

  ghost predicate AreTasksOf(tasks: seq<O.Task>, entries: O.Entries) {
    && (forall i :: 0 <= i < |tasks| ==>
          tasks[i].id in entries
          && tasks[i] == O.TaskOf(tasks[i].id, entries[tasks[i].id]))
    && (forall i, j :: 0 <= i < j < |tasks| ==> tasks[i].id != tasks[j].id)
  }

  /** Where the scan for due entries stands: `todo` has not been looked at yet. */
  ghost predicate Scanned(entries: O.Entries, tasks: seq<O.Task>, todo: set<int>, now: int, limit: nat) {
    && AreTasksOf(tasks, entries) && |TaskIDs(tasks)| == |tasks| <= limit && TaskIDs(tasks) !! todo
    && (forall id :: id in TaskIDs(tasks) ==> id in entries && entries[id].Due(now))
    && (forall id :: id in entries && id !in todo && id !in TaskIDs(tasks) ==> !entries[id].Due(now))
  }

  lemma TaskIDsSnoc(tasks: seq<O.Task>, task: O.Task)
    ensures TaskIDs(tasks + [task]) == TaskIDs(tasks) + {task.id}
  {
    var more := tasks + [task];
    forall x ensures x in TaskIDs(more) <==> x in TaskIDs(tasks) || x == task.id {
      if x in TaskIDs(tasks) { var i :| 0 <= i < |tasks| && tasks[i].id == x; assert more[i].id == x; }
      if x == task.id { assert more[|tasks|].id == x; }
    }
  }

  lemma ScanOneMore(entries: O.Entries, tasks: seq<O.Task>, todo: set<int>, id: int, now: int, limit: nat)
    requires Scanned(entries, tasks, todo, now, limit) && |tasks| < limit && id in todo && id in entries
    ensures var more := if entries[id].Due(now) then tasks + [O.TaskOf(id, entries[id])] else tasks;
            && Scanned(entries, more, todo - {id}, now, limit)
            && (entries[id].Due(now) ==>
                  O.Claim(entries, TaskIDs(more))
                  == O.Claim(entries, TaskIDs(tasks))[id := entries[id].(status := O.Processing)])
            && O.Claim(entries, TaskIDs(tasks))[id] == entries[id]
  {
    TaskIDsSnoc(tasks, O.TaskOf(id, entries[id]));
    forall i | 0 <= i < |tasks| ensures tasks[i].id != id { assert tasks[i].id in TaskIDs(tasks); }
  }

  function IDsOf(txs: seq<Transaction>): seq<int> {
    seq(|txs|, i requires 0 <= i < |txs| => txs[i].transactionID)
  }

  lemma InListSnoc(out: seq<Transaction>, tx: Transaction)
    ensures forall x :: S.InList(out + [tx], x) <==> S.InList(out, x) || x == tx.transactionID
  {
    forall x ensures S.InList(out + [tx], x) <==> S.InList(out, x) || x == tx.transactionID {
      if S.InList(out, x) {
        var i :| 0 <= i < |out| && out[i].transactionID == x;
        assert (out + [tx])[i].transactionID == x;
      }
      assert (out + [tx])[|out|] == tx;
    }
  }

  /** Where the scan for missing callbacks stands. */
  ghost predicate Listed(out: seq<Transaction>, rows: Rows, missing: set<int>, todo: set<int>, limit: nat) {
    && |out| <= limit
    && (forall i :: 0 <= i < |out| ==>
          && out[i].transactionID in missing - todo && out[i].transactionID in rows
          && out[i] == rows[out[i].transactionID])
    && (forall i, j :: 0 <= i < j < |out| ==> out[i].transactionID != out[j].transactionID)
    && (forall id :: id in missing && id !in todo ==> S.InList(out, id))
  }

  lemma ListOneMore(out: seq<Transaction>, rows: Rows, missing: set<int>, todo: set<int>, id: int, limit: nat)
    requires Listed(out, rows, missing, todo, limit) && |out| < limit && id in todo && id in rows
               && rows[id].transactionID == id
    ensures Listed(if id in missing then out + [rows[id]] else out, rows, missing, todo - {id}, limit)
  {
    InListSnoc(out, rows[id]);
  }

  lemma ListedAll(out: seq<Transaction>, missing: set<int>, limit: nat)
    requires |out| <= limit
    requires forall i :: 0 <= i < |out| ==> out[i].transactionID in missing
    requires forall i, j :: 0 <= i < j < |out| ==> out[i].transactionID != out[j].transactionID
    requires |out| < limit ==> forall id :: id in missing ==> S.InList(out, id)
    ensures R.ToSet(IDsOf(out)) <= missing
    ensures |IDsOf(out)| == R.Min(limit, |missing|)
  {
    var ids := IDsOf(out);
    R.DistinctSize(ids);
    O.SmallerSet(R.ToSet(ids), missing);
    if |out| < limit {
      forall id | id in missing ensures id in R.ToSet(ids) {
        var i :| 0 <= i < |out| && out[i].transactionID == id;
        assert ids[i] == id;
      }
      assert R.ToSet(ids) == missing;
    }
  }

  class MemoryStore {
    var nextRowID: int
    var transactions: map<int, TransactionRow>
    var outbox: map<int, CallbackRow>
    var lastOutboxID: int

    /** Row objects are filed under their own ID, so no two keys share one. */
    ghost predicate Valid()
      reads this
    {
      && (forall i :: i in transactions ==> transactions[i].transactionID == i)
      && (forall i :: i in outbox ==> outbox[i].id == i && i <= lastOutboxID)
    }

    ghost function Footprint(): set<object>
      reads this
    {
      {this} + transactions.Values + outbox.Values
    }

    ghost function TransactionTable(): Table
      reads this, transactions.Values
    {
      Table(nextRowID, map id | id in transactions :: transactions[id].Clone())
    }

    ghost function CallbackOutbox(): O.Outbox
      reads this, outbox.Values
    {
      O.Outbox(lastOutboxID, map id | id in outbox :: outbox[id].Value())
    }

    constructor ()
      ensures Valid() && fresh(Footprint())
      ensures TransactionTable() == Table(1, map[]) && CallbackOutbox() == O.Outbox(0, map[])
    {
      nextRowID, lastOutboxID := 1, 0;
      transactions, outbox := map[], map[];
    }

    /** After changing one row object the table has changed in that row only. */
    twostate lemma OneRowChanged(id: int)
      requires old(Valid()) && id in transactions
      requires transactions == old(transactions) && nextRowID == old(nextRowID)
      requires forall k :: k in transactions && transactions[k] != transactions[id] ==> unchanged(transactions[k])
      ensures TransactionTable()
                == old(TransactionTable()).(rows := old(TransactionTable()).rows[id := transactions[id].Clone()])
    {
      forall k | k in transactions && k != id ensures transactions[k].Clone() == old(transactions[k].Clone()) {}
      assert TransactionTable().rows == old(TransactionTable()).rows[id := transactions[id].Clone()];
    }

    twostate lemma OneCallbackChanged(id: int)
      requires old(Valid()) && id in outbox
      requires outbox == old(outbox) && lastOutboxID == old(lastOutboxID)
      requires forall k :: k in outbox && outbox[k] != outbox[id] ==> unchanged(outbox[k])
      ensures CallbackOutbox()
                == old(CallbackOutbox()).(entries := old(CallbackOutbox()).entries[id := outbox[id].Value()])
    {
      forall k | k in outbox && k != id ensures outbox[k].Value() == old(outbox[k].Value()) {}
      assert CallbackOutbox().entries == old(CallbackOutbox()).entries[id := outbox[id].Value()];
    }

    // -------------------------------------------------------------- transactions

    method Insert(input: Request, uuid: string, tid: int, now: int) returns (row: Transaction)
      requires Valid() && tid !in transactions
      modifies this
      ensures Valid() && fresh(Footprint() - old(Footprint()))
      ensures row == NewRow(old(nextRowID), uuid, input, tid, now)
      ensures TransactionTable() == Table(old(nextRowID) + 1, old(TransactionTable()).rows[tid := row])
      ensures CallbackOutbox() == old(CallbackOutbox())
    {
      ghost var before := TransactionTable();
      var tx := new TransactionRow(NewRow(nextRowID, uuid, input, tid, now));
      nextRowID := nextRowID + 1;
      transactions := transactions[tid := tx];
      row := tx.Clone();
      assert TransactionTable().rows == before.rows[tid := row];
    }

    method CreateTransaction(input: Request, uuid: string, draws: Draws, now: int)
                             returns (r: Result<Transaction, Error>)
      requires Valid()
      modifies Footprint()
      ensures Valid() && fresh(Footprint() - old(Footprint()))
      ensures TransactionTable() == Apply(old(TransactionTable()), Create(input, uuid, draws), now)
      ensures CallbackOutbox() == old(CallbackOutbox())
      ensures match FirstFree(old(TransactionTable()).rows, draws)
              case Some(id) => r == Success(NewRow(old(nextRowID), uuid, input, id, now))
              case None => r == Failure(NoUniqueID)
    {
      ghost var before := TransactionTable();
      var attempts := 0;
      while attempts < MAX_DRAWS
        invariant 0 <= attempts <= MAX_DRAWS
        invariant FirstFree(before.rows, draws) == FirstFree(before.rows, draws[attempts..])
      {
        var tid := draws[attempts];
        if tid !in transactions {
          var row := Insert(input, uuid, tid, now);
          return Success(row);
        }
        assert draws[attempts..][1..] == draws[attempts + 1..];
        attempts := attempts + 1;
      }
      r := Failure(NoUniqueID);
    }

    method UpdateLiveMeter(charger: string, id: int, meterWh: real, ghost now: int)
                           returns (r: Result<Transaction, Error>)
      requires Valid()
      modifies transactions.Values
      ensures Valid() && Footprint() == old(Footprint())
      ensures TransactionTable() == Apply(old(TransactionTable()), LiveMeter(charger, id, meterWh), now)
      ensures CallbackOutbox() == old(CallbackOutbox())
      ensures r == if Known(old(TransactionTable()).rows, charger, id) then Success(TransactionTable().rows[id])
                else Failure(NotFound)
    {
      ghost var before := TransactionTable();
      assert id in transactions ==> before.rows[id := transactions[id].Clone()] == before.rows;
      if id !in transactions || transactions[id].chargerID != charger {
        return Failure(NotFound);
      }
      var tx := transactions[id];
      tx.meterStop := Some(meterWh);
      tx.totalConsumption := Some(Consumption(tx.Clone(), meterWh));
      OneRowChanged(id);
      r := Success(tx.Clone());
    }

    method StopTransaction(charger: string, id: int, meterWh: real, now: int) returns (r: Result<Transaction, Error>)
      requires Valid()
      modifies transactions.Values
      ensures Valid() && Footprint() == old(Footprint())
      ensures TransactionTable() == Apply(old(TransactionTable()), Stop(charger, id, meterWh), now)
      ensures CallbackOutbox() == old(CallbackOutbox())
      ensures r == if Known(old(TransactionTable()).rows, charger, id) then Success(TransactionTable().rows[id])
                else Failure(NotFound)
    {
      ghost var before := TransactionTable();
      assert id in transactions ==> before.rows[id := transactions[id].Clone()] == before.rows;
      if id !in transactions || transactions[id].chargerID != charger {
        return Failure(NotFound);
      }
      var tx := transactions[id];
      if tx.stopTime.Some? {
        return Success(tx.Clone());
      }
      tx.meterStop := Some(meterWh);
      tx.totalConsumption := Some(Consumption(tx.Clone(), meterWh));
      tx.stopTime := Some(now);
      OneRowChanged(id);
      r := Success(tx.Clone());
    }

    method ForceCloseTransaction(charger: string, id: int, meterWh: real, now: int)
                                 returns (r: Result<Transaction, Error>)
      requires Valid()
      modifies transactions.Values
      ensures Valid() && Footprint() == old(Footprint())
      ensures TransactionTable() == Apply(old(TransactionTable()), ForceClose(charger, id, meterWh), now)
      ensures CallbackOutbox() == old(CallbackOutbox())
      ensures r == if Known(old(TransactionTable()).rows, charger, id) then Success(TransactionTable().rows[id])
                else Failure(NotFound)
    {
      r := StopTransaction(charger, id, meterWh, now);
    }

    method GetByTransactionID(charger: string, id: int) returns (r: Result<Transaction, Error>)
      requires Valid()
      ensures r == if Known(TransactionTable().rows, charger, id) then Success(TransactionTable().rows[id])
                else Failure(NotFound)
    {
      if id !in transactions || transactions[id].chargerID != charger {
        return Failure(NotFound);
      }
      r := Success(transactions[id].Clone());
    }

    method GetByTransactionIDAndIDTag(id: int, idTag: string) returns (r: Result<Transaction, Error>)
      requires Valid()
      ensures var rows := TransactionTable().rows;
              r == if id in rows && rows[id].idTag == idTag then Success(rows[id]) else Failure(NotFound)
    {
      if id !in transactions || transactions[id].idTag != idTag {
        return Failure(NotFound);
      }
      r := Success(transactions[id].Clone());
    }

    method ListOpenTransactionsByCharger(charger: string) returns (out: seq<Transaction>)
      requires Valid()
      ensures S.Lists(out, TransactionTable().rows, charger)
    {
      out := [];
      var todo := transactions.Keys;
      while todo != {}
        invariant todo <= transactions.Keys
        invariant forall i :: 0 <= i < |out| ==>
                    out[i].transactionID in OpenOf(TransactionTable().rows, charger) && out[i].transactionID !in todo
                    && TransactionTable().rows[out[i].transactionID] == out[i]
        invariant forall i, j :: 0 <= i < j < |out| ==> out[i].transactionID != out[j].transactionID
        invariant forall id :: id in OpenOf(TransactionTable().rows, charger) && id !in todo ==> S.InList(out, id)
      {
        SomeKey(todo);
        var id: int :| id in todo;
        todo := todo - {id};
        var tx := transactions[id];
        if tx.chargerID == charger && tx.stopTime.None? {
          InListSnoc(out, tx.Clone());
          out := out + [tx.Clone()];
        }
      }
    }

    method UpdateTransactionMaxKWh(id: int, maxKWh: real, ghost now: int)
      requires Valid()
      modifies transactions.Values
      ensures Valid() && Footprint() == old(Footprint())
      ensures TransactionTable() == Apply(old(TransactionTable()), SetMaxKWh(id, maxKWh), now)
      ensures CallbackOutbox() == old(CallbackOutbox())
    {
      ghost var before := TransactionTable();
      if id !in transactions {
        return;
      }
      transactions[id].maxKWh := Some(maxKWh);
      OneRowChanged(id);
    }

    method CheckAndMarkLimitStop(charger: string, id: int, ghost now: int) returns (claimed: bool)
      requires Valid()
      modifies transactions.Values
      ensures Valid() && Footprint() == old(Footprint())
      ensures TransactionTable() == Apply(old(TransactionTable()), CheckLimit(charger, id), now)
      ensures CallbackOutbox() == old(CallbackOutbox())
      ensures var rows := old(TransactionTable()).rows;
              claimed <==> Known(rows, charger, id) && Claimable(rows[id])
    {
      ghost var before := TransactionTable();
      assert id in transactions ==> before.rows[id := transactions[id].Clone()] == before.rows;
      if id !in transactions || transactions[id].chargerID != charger {
        return false;
      }
      var tx := transactions[id];
      if tx.stopTime.Some? {
        return false;
      }
      if tx.limitStopRequested {
        return false;
      }
      if tx.maxKWh.None? || tx.totalConsumption.None? {
        return false;
      }
      if tx.totalConsumption.value < tx.maxKWh.value {
        return false;
      }
      tx.limitStopRequested := true;
      OneRowChanged(id);
      claimed := true;
    }

    method ReleaseLimitStopRequest(charger: string, id: int, ghost now: int)
      requires Valid()
      modifies transactions.Values
      ensures Valid() && Footprint() == old(Footprint())
      ensures TransactionTable() == Apply(old(TransactionTable()), Release(charger, id), now)
      ensures CallbackOutbox() == old(CallbackOutbox())
    {
      ghost var before := TransactionTable();
      assert id in transactions ==> before.rows[id := transactions[id].Clone()] == before.rows;
      if id in transactions && transactions[id].chargerID == charger && transactions[id].stopTime.None? {
        transactions[id].limitStopRequested := false;
        OneRowChanged(id);
      }
    }

    // -------------------------------------------------------------- the callback outbox

    /** The scan for an entry with the same dedupe key. */
    method HasCallback(key: O.Key) returns (found: bool)
      requires Valid()
      ensures found <==> O.HasKey(CallbackOutbox().entries, key)
    {
      var todo := outbox.Keys;
      while todo != {}
        invariant todo <= outbox.Keys
        invariant forall id :: id in outbox && id !in todo ==> outbox[id].key != key
      {
        SomeKey(todo);
        var id: int :| id in todo;
        if outbox[id].key == key {
          assert CallbackOutbox().entries[id].key == key;
          return true;
        }
        todo := todo - {id};
      }
      assert forall id :: id in CallbackOutbox().entries ==> CallbackOutbox().entries[id].key == outbox[id].key;
      found := false;
    }

    method EnqueueCallback(key: O.Key, now: int)
      requires Valid()
      modifies Footprint()
      ensures Valid() && fresh(Footprint() - old(Footprint()))
      ensures CallbackOutbox() == O.Enqueue(old(CallbackOutbox()), key, now)
      ensures TransactionTable() == old(TransactionTable())
    {
      var known := HasCallback(key);
      if known {
        return;
      }
      ghost var before := CallbackOutbox().entries;
      lastOutboxID := lastOutboxID + 1;
      var row := new CallbackRow(lastOutboxID, O.Fresh(key, now));
      outbox := outbox[lastOutboxID := row];
      assert CallbackOutbox().entries == before[lastOutboxID := row.Value()];
    }

    /** The map is ranged over in any order, so any `limit` due entries may be the ones claimed. */
    method ClaimDueCallbacks(limit: nat, now: int) returns (tasks: seq<O.Task>)
      requires Valid()
      modifies outbox.Values
      ensures Valid() && Footprint() == old(Footprint())
      ensures TransactionTable() == old(TransactionTable())
      ensures O.ValidClaim(old(CallbackOutbox()).entries, TaskIDs(tasks), now, limit)
      ensures CallbackOutbox() == old(CallbackOutbox()).(entries := O.Claim(old(CallbackOutbox()).entries,
                TaskIDs(tasks)))
      ensures AreTasksOf(tasks, old(CallbackOutbox()).entries)
    {
      tasks := [];
      ghost var before := CallbackOutbox();
      var todo := outbox.Keys;
      assert O.Claim(before.entries, {}) == before.entries;
      while todo != {}
        invariant outbox == old(outbox) && todo <= outbox.Keys
        invariant Scanned(before.entries, tasks, todo, now, limit)
        invariant CallbackOutbox() == before.(entries := O.Claim(before.entries, TaskIDs(tasks)))
        invariant Valid() && TransactionTable() == old(TransactionTable())
      {
        if |tasks| >= limit {
          break;
        }
        SomeKey(todo);
        var id: int :| id in todo;
        var task := ClaimIfDue(id, now);
        ScanOneMore(before.entries, tasks, todo, id, now, limit);
        todo := todo - {id};
        if task.Some? {
          tasks := tasks + [task.value];
        }
      }
    }

    method ClaimIfDue(id: int, now: int) returns (task: Option<O.Task>)
      requires Valid() && id in outbox
      modifies outbox.Values
      ensures Valid() && outbox == old(outbox) && Footprint() == old(Footprint())
      ensures TransactionTable() == old(TransactionTable())
      ensures var o := old(CallbackOutbox());
              if o.entries[id].Due(now)
              then task == Some(O.TaskOf(id, o.entries[id]))
                   && CallbackOutbox() == o.(entries := o.entries[id := o.entries[id].(status := O.Processing)])
              else task == None && CallbackOutbox() == o
    {
      var item := outbox[id];
      if !item.status.Pending? || item.nextRetryAt > now {
        return None;
      }
      item.status := O.Processing;
      OneCallbackChanged(id);
      task := Some(O.TaskOf(id, item.Value()));
    }

    /** The transactions without an entry of this kind, at most `limit` of them, in any order. */
    method ListTransactionsMissingCallback(kind: O.Kind, limit: nat) returns (out: seq<Transaction>)
      requires Valid()
      ensures R.Listing(kind, TransactionTable().rows, CallbackOutbox().entries, IDsOf(out), limit)
      ensures forall i :: 0 <= i < |out| ==>
                out[i].transactionID in transactions && out[i] == TransactionTable().rows[out[i].transactionID]
    {
      out := [];
      ghost var rows, missing := TransactionTable().rows,
          R.Missing(kind, TransactionTable().rows, CallbackOutbox().entries);
      var todo := transactions.Keys;
      while todo != {}
        invariant todo <= transactions.Keys && Listed(out, rows, missing, todo, limit)
      {
        if |out| >= limit {
          break;
        }
        SomeKey(todo);
        var id: int :| id in todo;
        ListOneMore(out, rows, missing, todo, id, limit);
        todo := todo - {id};
        var tx := transactions[id];
        if kind.CompletedKind? && tx.stopTime.None? {
          continue;
        }
        var found := HasCallback(O.Key(kind, id));
        if !found {
          out := out + [tx.Clone()];
        }
      }
      ListedAll(out, missing, limit);
    }

    method MarkCallbackSent(id: int)
      requires Valid()
      modifies outbox.Values
      ensures Valid() && Footprint() == old(Footprint())
      ensures TransactionTable() == old(TransactionTable())
      ensures CallbackOutbox().lastID == old(CallbackOutbox()).lastID
      ensures var e := old(CallbackOutbox()).entries;
              CallbackOutbox().entries == if id in e then e[id := e[id].(status := O.Sent)] else e
    {
      if id in outbox {
        outbox[id].status := O.Sent;
        OneCallbackChanged(id);
      }
    }

    method MarkCallbackRetry(id: int, retries: nat, nextRetryAt: int)
      requires Valid()
      modifies outbox.Values
      ensures Valid() && Footprint() == old(Footprint())
      ensures TransactionTable() == old(TransactionTable())
      ensures CallbackOutbox().lastID == old(CallbackOutbox()).lastID
      ensures var e := old(CallbackOutbox()).entries;
              CallbackOutbox().entries
              == if id in e then e[id := e[id].(status := O.Pending, retries := retries, nextRetryAt := nextRetryAt)]
                  else e
    {
      if id in outbox {
        var item := outbox[id];
        item.status := O.Pending;
        item.retries := retries;
        item.nextRetryAt := nextRetryAt;
        OneCallbackChanged(id);
      }
    }

    method MarkCallbackFatal(id: int)
      requires Valid()
      modifies outbox.Values
      ensures Valid() && Footprint() == old(Footprint())
      ensures TransactionTable() == old(TransactionTable())
      ensures CallbackOutbox().lastID == old(CallbackOutbox()).lastID
      ensures var e := old(CallbackOutbox()).entries;
              CallbackOutbox().entries == if id in e then e[id := e[id].(status := O.Fatal)] else e
    {
      if id in outbox {
        outbox[id].status := O.Fatal;
        OneCallbackChanged(id);
      }
    }
  }
}
