/** The hook manager (internal/hooks/manager.go): each worker pass looks for missing callbacks, claims what is
    due and settles it. Its passes are the passes the termination and catch-up theorems are about. */
module Hooks {
  import opened Rows
  import O = Outbox
  import R = Reconcile
  import M = MemoryStore

  /** What a successful start callback does to the table: the answered limit, and the check it owes. The
      payload names the transaction's charger. */
  function LimitAnswered(t: Table, key: O.Key, outcome: O.Outcome, now: int): Table {
    if !key.kind.StartKind? || !outcome.Posted? then t
    else
      var limited := Apply(t, SetMaxKWh(key.transactionID, outcome.maxKWh), now);
      if key.transactionID !in t.rows || t.rows[key.transactionID].chargerID == "" then limited
      else Apply(limited, CheckLimit(t.rows[key.transactionID].chargerID, key.transactionID), now)
  }

  function AllLimitsAnswered(t: Table, entries: O.Entries, posts: seq<O.Post>): Table {
    if posts == [] then t
    else
      var p := posts[|posts| - 1];
      var mid := AllLimitsAnswered(t, entries, posts[..|posts| - 1]);
      if p.id in entries then LimitAnswered(mid, entries[p.id].key, p.outcome, p.now) else mid
  }

  /** Settling other tasks leaves an entry as it was. */
  lemma {:induction false} SettledElsewhere(entries: O.Entries, posts: seq<O.Post>, id: int)
    requires forall i :: 0 <= i < |posts| ==> posts[i].id != id
    ensures O.SettleAll(entries, posts).Keys == entries.Keys
    ensures id in entries ==> O.SettleAll(entries, posts)[id] == entries[id]
  {
    if posts != [] { SettledElsewhere(entries, posts[..|posts| - 1], id); }
  }

  /** Processing one more claimed task is settling one more post. */
  lemma OneMorePost(t: Table, entries: O.Entries, ids: set<int>, posts: seq<O.Post>, task: O.Task, answer: O.Attempt)
    requires task.id in entries && task == O.TaskOf(task.id, entries[task.id])
    requires forall k :: 0 <= k < |posts| ==> posts[k].id != task.id
    ensures var claimed := O.Claim(entries, ids);
            var before := O.SettleAll(claimed, posts);
            var more := posts + [O.Post(task.id, answer.outcome, answer.now)];
            && task.id in before
            && O.SettleAll(claimed, more) == before[task.id := O.Settle(before[task.id], task, answer.outcome,
                 answer.now)]
            && AllLimitsAnswered(t, entries, more)
               == LimitAnswered(AllLimitsAnswered(t, entries, posts), task.key, answer.outcome, answer.now)
  {
    SettledElsewhere(O.Claim(entries, ids), posts, task.id);
    assert (posts + [O.Post(task.id, answer.outcome, answer.now)])[..|posts|] == posts;
  }

  /** The post of one task to this server. */
  function PostTo(server: int -> O.Attempt, id: int): O.Post {
    O.Post(id, server(id).outcome, server(id).now)
  }

  /** The posts made of these tasks so far. */
  ghost predicate PostsOf(posts: seq<O.Post>, tasks: seq<O.Task>, server: int -> O.Attempt) {
    |posts| == |tasks| && forall k :: 0 <= k < |tasks| ==> posts[k] == PostTo(server, tasks[k].id)
  }

  lemma PostsCoverTasks(posts: seq<O.Post>, tasks: seq<O.Task>, server: int -> O.Attempt)
    requires PostsOf(posts, tasks, server)
    ensures O.Ids(posts) == M.TaskIDs(tasks)
  {
    forall id ensures id in O.Ids(posts) <==> id in M.TaskIDs(tasks) {
      if id in O.Ids(posts) { var i :| 0 <= i < |posts| && posts[i].id == id; assert tasks[i].id == id; }
      if id in M.TaskIDs(tasks) { var i :| 0 <= i < |tasks| && tasks[i].id == id; assert posts[i].id == id; }
    }
  }

  lemma EnqueueAllOneMore(cfg: R.Config, kind: O.Kind, rows: Rows, o: O.Outbox, ids: seq<int>, i: nat, now: int)
    requires i < |ids| && ids[i] in rows
    ensures var mid := R.EnqueueAll(cfg, kind, rows, o, ids[..i], now);
            R.EnqueueAll(cfg, kind, rows, o, ids[..i + 1], now)
            == if R.Enqueueable(cfg, kind, rows[ids[i]]) then O.Enqueue(mid, O.Key(kind, ids[i]), now) else mid
  {
    assert ids[..i + 1][..i] == ids[..i];
  }

  class Manager {
    const cfg: R.Config
    const store: M.MemoryStore

    constructor (cfg: R.Config, store: M.MemoryStore)
      ensures this.cfg == cfg && this.store == store
    {
      this.cfg, this.store := cfg, store;
    }

    ghost function Rows(): Rows
      reads store, store.transactions.Values
    {
      store.TransactionTable().rows
    }

    method EnqueueStartTransaction(tx: Transaction, now: int) returns (ok: bool)
      requires store.Valid()
      modifies store.Footprint()
      ensures store.Valid() && fresh(store.Footprint() - old(store.Footprint()))
      ensures store.TransactionTable() == old(store.TransactionTable())
      ensures ok <==> R.TargetURL(cfg, O.StartKind, tx) != ""
      ensures store.CallbackOutbox()
           == if ok then O.Enqueue(old(store.CallbackOutbox()), O.Key(O.StartKind, tx.transactionID), now)
              else old(store.CallbackOutbox())
    {
      var targetURL := cfg.start;
      if tx.isSingleSession && cfg.singleStart != "" {
        targetURL := cfg.singleStart;
      }
      if targetURL == "" {
        return false;
      }
      store.EnqueueCallback(O.Key(O.StartKind, tx.transactionID), now);
      ok := true;
    }

    method EnqueueCompletedTransaction(tx: Transaction, now: int) returns (ok: bool)
      requires store.Valid()
      modifies store.Footprint()
      ensures store.Valid() && fresh(store.Footprint() - old(store.Footprint()))
      ensures store.TransactionTable() == old(store.TransactionTable())
      ensures ok <==> R.TargetURL(cfg, O.CompletedKind, tx) != "" && R.CompletedOK(tx)
      ensures store.CallbackOutbox()
           == if ok then O.Enqueue(old(store.CallbackOutbox()), O.Key(O.CompletedKind, tx.transactionID), now)
              else old(store.CallbackOutbox())
    {
      var targetURL := cfg.completed;
      if tx.isSingleSession && cfg.singleCompleted != "" {
        targetURL := cfg.singleCompleted;
      }
      if targetURL == "" {
        return false;
      }
      if tx.stopTime.None? || tx.meterStop.None? || tx.totalConsumption.None? || tx.totalConsumption.value < 0.0 {
        return false;
      }
      store.EnqueueCallback(O.Key(O.CompletedKind, tx.transactionID), now);
      ok := true;
    }

    method EnqueueListed(kind: O.Kind, tx: Transaction, now: int)
      requires store.Valid()
      modifies store.Footprint()
      ensures store.Valid() && fresh(store.Footprint() - old(store.Footprint()))
      ensures store.TransactionTable() == old(store.TransactionTable())
      ensures store.CallbackOutbox()
           == if R.Enqueueable(cfg, kind, tx) then O.Enqueue(old(store.CallbackOutbox()), O.Key(kind, tx.transactionID),
               now)
              else old(store.CallbackOutbox())
    {
      if kind.StartKind? {
        var _ := EnqueueStartTransaction(tx, now);
      } else {
        var _ := EnqueueCompletedTransaction(tx, now);
      }
    }

    /** Enqueue each listed transaction. */
    method EnqueueAllListed(kind: O.Kind, listed: seq<Transaction>, now: int)
      requires store.Valid()
      requires forall i :: 0 <= i < |listed| ==>
                 listed[i].transactionID in Rows()
                 && listed[i] == Rows()[listed[i].transactionID]
      modifies store.Footprint()
      ensures store.Valid() && fresh(store.Footprint() - old(store.Footprint()))
      ensures store.TransactionTable() == old(store.TransactionTable())
      ensures store.CallbackOutbox() == R.EnqueueAll(cfg, kind, old(Rows()), old(store.CallbackOutbox()),
                M.IDsOf(listed), now)
    {
      ghost var before, rows, ids := store.CallbackOutbox(), Rows(), M.IDsOf(listed);
      for i := 0 to |listed|
        invariant store.Valid() && fresh(store.Footprint() - old(store.Footprint()))
        invariant store.TransactionTable() == old(store.TransactionTable())
        invariant store.CallbackOutbox() == R.EnqueueAll(cfg, kind, rows, before, ids[..i], now)
      {
        EnqueueAllOneMore(cfg, kind, rows, before, ids, i, now);
        EnqueueListed(kind, listed[i], now);
      }
      assert ids[..|listed|] == ids;
    }

    /** List the transactions without a callback of this kind and enqueue each. */
    method RecoverMissing(kind: O.Kind, now: int) returns (ghost ids: seq<int>)
      requires store.Valid()
      modifies store.Footprint()
      ensures store.Valid() && fresh(store.Footprint() - old(store.Footprint()))
      ensures store.TransactionTable() == old(store.TransactionTable())
      ensures R.Listing(kind, old(Rows()), old(store.CallbackOutbox()).entries, ids, R.BATCH)
      ensures store.CallbackOutbox() == R.EnqueueAll(cfg, kind, old(Rows()), old(store.CallbackOutbox()), ids, now)
    {
      var listed := store.ListTransactionsMissingCallback(kind, R.BATCH);
      ids := M.IDsOf(listed);
      EnqueueAllListed(kind, listed, now);
    }

    method ReconcileMissingCallbacks(now: int) returns (ghost r: R.Reconciliation)
      requires store.Valid()
      modifies store.Footprint()
      ensures store.Valid() && fresh(store.Footprint() - old(store.Footprint()))
      ensures store.TransactionTable() == old(store.TransactionTable())
      ensures R.ValidReconciliation(cfg, old(Rows()), old(store.CallbackOutbox()), r)
      ensures store.CallbackOutbox() == R.AfterReconcile(cfg, old(Rows()), old(store.CallbackOutbox()), r)
    {
      ghost var starts := RecoverMissing(O.StartKind, now);
      ghost var completed := RecoverMissing(O.CompletedKind, now);
      r := R.Reconciliation(starts, completed, now);
    }

    /** postTask, after the server has answered: a start callback's limit is stored and checked. */
    method StoreLimit(task: O.Task, outcome: O.Outcome, now: int) returns (claimed: bool)
      requires store.Valid()
      modifies store.transactions.Values
      ensures store.Valid() && store.Footprint() == old(store.Footprint())
      ensures store.TransactionTable() == LimitAnswered(old(store.TransactionTable()), task.key, outcome, now)
      ensures store.CallbackOutbox() == old(store.CallbackOutbox())
    {
      claimed := false;
      if task.key.kind.StartKind? && outcome.Posted? {
        var id := task.key.transactionID;
        store.UpdateTransactionMaxKWh(id, outcome.maxKWh, now);
        if id in store.transactions && store.transactions[id].chargerID != "" {
          assert store.transactions[id].Clone() == store.TransactionTable().rows[id];
          claimed := store.CheckAndMarkLimitStop(store.transactions[id].chargerID, id, now);
        }
      }
    }

    /** Post a claimed task (`answer` is what came of it) and mark it. */
    method ProcessTask(task: O.Task, answer: O.Attempt)
      requires store.Valid()
      modifies store.transactions.Values, store.outbox.Values
      ensures store.Valid() && store.Footprint() == old(store.Footprint())
      ensures store.TransactionTable() == LimitAnswered(old(store.TransactionTable()), task.key, answer.outcome,
                answer.now)
      ensures var o := old(store.CallbackOutbox());
              store.CallbackOutbox()
              == if task.id in o.entries
                 then o.(entries := o.entries[task.id := O.Settle(o.entries[task.id], task, answer.outcome,
                     answer.now)]) else o
    {
      var _ := StoreLimit(task, answer.outcome, answer.now);
      if answer.outcome.Posted? {
        store.MarkCallbackSent(task.id);
        return;
      }
      if answer.outcome.Rejected? {
        store.MarkCallbackFatal(task.id);
        return;
      }
      var retries := task.retries + 1;
      if retries >= task.maxRetries {
        store.MarkCallbackFatal(task.id);
        return;
      }
      store.MarkCallbackRetry(task.id, retries, answer.now + O.Backoff(task.key.kind, retries));
    }

    /** The body of the loop below: the outbox and the table were those after `posts`. */
    method ProcessNext(task: O.Task, answer: O.Attempt, ghost t: Table, ghost entries: O.Entries, ghost ids: set<int>,
                       ghost posts: seq<O.Post>)
      returns (ghost more: seq<O.Post>)
      requires store.Valid()
      requires task.id in entries && task == O.TaskOf(task.id, entries[task.id])
      requires forall k :: 0 <= k < |posts| ==> posts[k].id != task.id
      requires store.CallbackOutbox().entries == O.SettleAll(O.Claim(entries, ids), posts)
      requires store.TransactionTable() == AllLimitsAnswered(t, entries, posts)
      modifies store.transactions.Values, store.outbox.Values
      ensures store.Valid() && store.Footprint() == old(store.Footprint())
      ensures more == posts + [O.Post(task.id, answer.outcome, answer.now)]
      ensures store.CallbackOutbox().entries == O.SettleAll(O.Claim(entries, ids), more)
      ensures store.TransactionTable() == AllLimitsAnswered(t, entries, more)
    {
      OneMorePost(t, entries, ids, posts, task, answer);
      ProcessTask(task, answer);
      more := posts + [O.Post(task.id, answer.outcome, answer.now)];
    }

    /** Process every claimed task once. */
    method ProcessAll(tasks: seq<O.Task>, server: int -> O.Attempt, ghost entries: O.Entries)
                      returns (ghost posts: seq<O.Post>)
      requires store.Valid() && M.AreTasksOf(tasks, entries)
      requires store.CallbackOutbox().entries == O.Claim(entries, M.TaskIDs(tasks))
      modifies store.transactions.Values, store.outbox.Values
      ensures store.Valid() && store.Footprint() == old(store.Footprint())
      ensures PostsOf(posts, tasks, server)
      ensures store.CallbackOutbox().entries == O.SettleAll(O.Claim(entries, M.TaskIDs(tasks)), posts)
      ensures store.TransactionTable() == AllLimitsAnswered(old(store.TransactionTable()), entries, posts)
    {
      ghost var t, ids := store.TransactionTable(), M.TaskIDs(tasks);
      posts := [];
      for i := 0 to |tasks|
        invariant store.Valid() && store.Footprint() == old(store.Footprint())
        invariant store.transactions == old(store.transactions) && store.outbox == old(store.outbox)
        invariant PostsOf(posts, tasks[..i], server)
        invariant store.CallbackOutbox().entries == O.SettleAll(O.Claim(entries, ids), posts)
        invariant store.TransactionTable() == AllLimitsAnswered(t, entries, posts)
      {
        posts := ProcessNext(tasks[i], server(tasks[i].id), t, entries, ids, posts);
      }
      assert tasks[..|tasks|] == tasks;
    }

    /** Claim up to ten due tasks and process each, whatever the server answers. */
    method ProcessClaimed(server: int -> O.Attempt, now: int) returns (ghost p: O.Pass)
      requires store.Valid()
      modifies store.Footprint()
      ensures store.Valid() && store.Footprint() == old(store.Footprint())
      ensures forall k :: 0 <= k < |p.posts| ==> p.posts[k] == PostTo(server, p.posts[k].id)
      ensures p.now == now && O.ValidPass(old(store.CallbackOutbox()).entries, p)
      ensures store.CallbackOutbox().entries == O.AfterPass(old(store.CallbackOutbox()).entries, p)
      ensures store.TransactionTable() == AllLimitsAnswered(old(store.TransactionTable()),
                old(store.CallbackOutbox()).entries, p.posts)
    {
      ghost var entries := store.CallbackOutbox().entries;
      var tasks := store.ClaimDueCallbacks(10, now);
      ghost var posts := ProcessAll(tasks, server, entries);
      PostsCoverTasks(posts, tasks, server);
      p := O.Pass(now, posts);
    }

    /** One tick of the worker. */
    method ProcessOnce(server: int -> O.Attempt, now: int) returns (ghost r: R.Reconciliation, ghost p: O.Pass)
      requires store.Valid()
      modifies store.Footprint()
      ensures store.Valid() && fresh(store.Footprint() - old(store.Footprint()))
      ensures R.ValidReconciliation(cfg, old(Rows()), old(store.CallbackOutbox()), r)
      ensures var found := R.AfterReconcile(cfg, old(Rows()), old(store.CallbackOutbox()), r).entries;
              && p.now == now && O.ValidPass(found, p)
              && (forall k :: 0 <= k < |p.posts| ==> p.posts[k] == PostTo(server, p.posts[k].id))
              && store.CallbackOutbox().entries == O.AfterPass(found, p)
              && store.TransactionTable() == AllLimitsAnswered(old(store.TransactionTable()), found, p.posts)
    {
      r := ReconcileMissingCallbacks(now);
      p := ProcessClaimed(server, now);
    }
  }
}
