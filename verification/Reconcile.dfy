/** Callback reconciliation (internal/store/callback_reconcile_memory.go and reconcileMissingCallbacks in
    internal/hooks/manager.go): every worker pass looks for transactions without a callback entry. */
module Reconcile {
  import opened Meter
  import opened Rows
  import opened Outbox

  const BATCH := 25

  /** The transactions that should have an entry of this kind and have none. */
  ghost function Missing(kind: Kind, rows: Rows, entries: Entries): set<int> {
    set id | id in rows && (kind.CompletedKind? ==> !rows[id].Open()) && !HasKey(entries, Key(kind, id))
  }

  /** EnqueueCompletedTransaction refuses a transaction without a stop time, meter or non-negative total. */
  predicate CompletedOK(tx: Transaction) {
    tx.stopTime.Some? && tx.meterStop.Some? && tx.totalConsumption.Some? && tx.totalConsumption.value >= 0.0
  }

  /** What the manager makes of a callback apart from where to send it. */
  predicate Acceptable(kind: Kind, tx: Transaction) {
    kind.CompletedKind? ==> CompletedOK(tx)
  }

  /** The callback URLs of the configuration. */
  datatype Config = Config(start: string, singleStart: string, completed: string, singleCompleted: string)

  function TargetURL(cfg: Config, kind: Kind, tx: Transaction): string {
    if kind.StartKind? then (if tx.isSingleSession && cfg.singleStart != "" then cfg.singleStart else cfg.start)
    else (if tx.isSingleSession && cfg.singleCompleted != "" then cfg.singleCompleted else cfg.completed)
  }

  predicate Enqueueable(cfg: Config, kind: Kind, tx: Transaction) {
    TargetURL(cfg, kind, tx) != "" && Acceptable(kind, tx)
  }

  /** Every transaction's callbacks would be taken. */
  ghost predicate AllEnqueueable(cfg: Config, rows: Rows) {
    forall kind, id :: id in rows && (kind == CompletedKind ==> !rows[id].Open()) ==> Enqueueable(cfg, kind, rows[id])
  }

  /** A closed row is refused exactly when its start reading is more than a register turn above its
      stop reading, so never for readings of a 32-bit register. */
  lemma RefusedIff(tx: Transaction, nextRowID: int, now: int)
    requires RowOK(tx.transactionID, tx, nextRowID, now) && !tx.Open()
    ensures !CompletedOK(tx) <==> tx.meterStart > tx.meterStop.value + MODULUS
  {
    DeltaNegativeIff(tx.meterStart, tx.meterStop.value);
  }

  function EnqueueAll(cfg: Config, kind: Kind, rows: Rows, o: Outbox, ids: seq<int>, now: int): Outbox {
    if ids == [] then o
    else
      var mid := EnqueueAll(cfg, kind, rows, o, ids[..|ids| - 1], now);
      var id := ids[|ids| - 1];
      if id in rows && Enqueueable(cfg, kind, rows[id]) then Enqueue(mid, Key(kind, id), now) else mid
  }

  function Min(a: nat, b: nat): nat { if a < b then a else b }

  function ToSet(ids: seq<int>): set<int> { set i | 0 <= i < |ids| :: ids[i] }

  /** What a listing may return: distinct missing transactions, as many as there are up to the limit. */
  ghost predicate Listing(kind: Kind, rows: Rows, entries: Entries, ids: seq<int>, limit: nat) {
    && ToSet(ids) <= Missing(kind, rows, entries)
    && (forall i, j :: 0 <= i < j < |ids| ==> ids[i] != ids[j])
    && |ids| == Min(limit, |Missing(kind, rows, entries)|)
  }

  lemma {:induction false} EnqueueAllKeys(cfg: Config, kind: Kind, rows: Rows, o: Outbox, ids: seq<int>, now: int)
    requires OutboxInv(o) && 0 <= o.lastID
    ensures var o' := EnqueueAll(cfg, kind, rows, o, ids, now);
            && OutboxInv(o') && 0 <= o'.lastID
            && (forall k :: HasKey(o'.entries, k)
                  <==> HasKey(o.entries, k)
                       || (k.kind == kind && k.transactionID in ToSet(ids)
                           && k.transactionID in rows && Enqueueable(cfg, kind, rows[k.transactionID])))
            && (forall id :: id in o.entries ==> id in o'.entries && o'.entries[id] == o.entries[id])
  {
    if ids != [] {
      var init, id := ids[..|ids| - 1], ids[|ids| - 1];
      EnqueueAllKeys(cfg, kind, rows, o, init, now);
      EnqueueOnce(EnqueueAll(cfg, kind, rows, o, init, now), Key(kind, id), now);
      assert ToSet(ids) == ToSet(init) + {id};
    }
  }

  lemma {:induction false} DistinctSize(ids: seq<int>)
    requires forall i, j :: 0 <= i < j < |ids| ==> ids[i] != ids[j]
    ensures |ToSet(ids)| == |ids|
  {
    if ids != [] {
      var init, id := ids[..|ids| - 1], ids[|ids| - 1];
      DistinctSize(init);
      assert ToSet(ids) == ToSet(init) + {id} && id !in ToSet(init);
    }
  }

  ghost function Accepted(cfg: Config, kind: Kind, rows: Rows, ids: seq<int>): set<int> {
    set id | id in ToSet(ids) && id in rows && Enqueueable(cfg, kind, rows[id])
  }

  /** One pass over one kind: exactly the listed transactions the manager accepts stop being missing,
      and the other kind is untouched. */
  lemma PassRemovesAccepted(cfg: Config, kind: Kind, rows: Rows, o: Outbox, ids: seq<int>, now: int, other: Kind)
    requires OutboxInv(o) && 0 <= o.lastID
    ensures Missing(other, rows, EnqueueAll(cfg, kind, rows, o, ids, now).entries)
         == Missing(other, rows, o.entries) - if other == kind then Accepted(cfg, kind, rows, ids) else {}
  {
    EnqueueAllKeys(cfg, kind, rows, o, ids, now);
  }

  /** A pass lowers the count by min(25, missing) exactly when the manager accepts all it listed. */
  lemma PassLowersCountIff(cfg: Config, kind: Kind, rows: Rows, o: Outbox, ids: seq<int>, now: int)
    requires OutboxInv(o) && 0 <= o.lastID && Listing(kind, rows, o.entries, ids, BATCH)
    ensures var before := |Missing(kind, rows, o.entries)|;
            var after := |Missing(kind, rows, EnqueueAll(cfg, kind, rows, o, ids, now).entries)|;
            && after >= before - Min(BATCH, before)
            && (after == before - Min(BATCH, before) <==> forall id :: id in ToSet(ids) ==>
                  Enqueueable(cfg, kind, rows[id]))
  {
    PassRemovesAccepted(cfg, kind, rows, o, ids, now, kind);
    DistinctSize(ids);
    var missing := Missing(kind, rows, o.entries);
    var accepted := Accepted(cfg, kind, rows, ids);
    SmallerSet(accepted, ToSet(ids));
    assert missing == (missing - accepted) + accepted;
    assert accepted == ToSet(ids) <==> forall id :: id in ToSet(ids) ==> Enqueueable(cfg, kind, rows[id]) by {
      forall id | id in ToSet(ids) ensures id in accepted <==> Enqueueable(cfg, kind, rows[id]) {
        assert id in missing;
      }
    }
  }

  /** One worker pass over both kinds (reconcileMissingCallbacks). */
  datatype Reconciliation = Reconciliation(starts: seq<int>, completed: seq<int>, now: int)

  function AfterReconcile(cfg: Config, rows: Rows, o: Outbox, r: Reconciliation): Outbox {
    EnqueueAll(cfg, CompletedKind, rows, EnqueueAll(cfg, StartKind, rows, o, r.starts, r.now), r.completed, r.now)
  }

  ghost predicate ValidReconciliation(cfg: Config, rows: Rows, o: Outbox, r: Reconciliation) {
    && Listing(StartKind, rows, o.entries, r.starts, BATCH)
    && Listing(CompletedKind, rows, EnqueueAll(cfg, StartKind, rows, o, r.starts, r.now).entries, r.completed, BATCH)
  }

  function RunReconcile(cfg: Config, rows: Rows, o: Outbox, passes: seq<Reconciliation>): Outbox {
    if passes == [] then o
    else AfterReconcile(cfg, rows, RunReconcile(cfg, rows, o, passes[..|passes| - 1]), passes[|passes| - 1])
  }

  ghost predicate ValidPasses(cfg: Config, rows: Rows, o: Outbox, passes: seq<Reconciliation>) {
    forall i :: 0 <= i < |passes| ==> ValidReconciliation(cfg, rows, RunReconcile(cfg, rows, o, passes[..i]), passes[i])
  }

  function Less(n: nat, m: nat): nat { if n >= m then n - m else 0 }

  lemma CatchUpStep(cfg: Config, rows: Rows, o: Outbox, r: Reconciliation)
    requires OutboxInv(o) && 0 <= o.lastID && ValidReconciliation(cfg, rows, o, r)
    requires AllEnqueueable(cfg, rows)
    ensures OutboxInv(AfterReconcile(cfg, rows, o, r)) && 0 <= AfterReconcile(cfg, rows, o, r).lastID
    ensures forall kind :: |Missing(kind, rows, AfterReconcile(cfg, rows, o, r).entries)|
                           == Less(|Missing(kind, rows, o.entries)|, BATCH)
  {
    var mid := EnqueueAll(cfg, StartKind, rows, o, r.starts, r.now);
    EnqueueAllKeys(cfg, StartKind, rows, o, r.starts, r.now);
    PassLowersCountIff(cfg, StartKind, rows, o, r.starts, r.now);
    PassRemovesAccepted(cfg, StartKind, rows, o, r.starts, r.now, CompletedKind);
    EnqueueAllKeys(cfg, CompletedKind, rows, mid, r.completed, r.now);
    PassLowersCountIff(cfg, CompletedKind, rows, mid, r.completed, r.now);
    PassRemovesAccepted(cfg, CompletedKind, rows, mid, r.completed, r.now, StartKind);
    forall kind: Kind ensures |Missing(kind, rows, AfterReconcile(cfg, rows, o, r).entries)|
                           == Less(|Missing(kind, rows, o.entries)|, BATCH) {
      match kind { case StartKind => case CompletedKind => }
    }
  }

  /** Whatever enqueues failed earlier: each pass lowers both counts by min(25, missing), no matter which
      transactions the listings pick, so after enough passes nothing is missing. */
  lemma {:induction false} ReconcileCatchesUp(cfg: Config, rows: Rows, o: Outbox, passes: seq<Reconciliation>)
    requires OutboxInv(o) && 0 <= o.lastID && ValidPasses(cfg, rows, o, passes)
    requires AllEnqueueable(cfg, rows)
    ensures OutboxInv(RunReconcile(cfg, rows, o, passes)) && 0 <= RunReconcile(cfg, rows, o, passes).lastID
    ensures forall kind ::
              |Missing(kind, rows, RunReconcile(cfg, rows, o, passes).entries)|
              == Less(|Missing(kind, rows, o.entries)|, BATCH * |passes|)
  {
    if passes != [] {
      var init, last := passes[..|passes| - 1], passes[|passes| - 1];
      assert forall i :: 0 <= i < |init| ==> init[..i] == passes[..i];
      ReconcileCatchesUp(cfg, rows, o, init);
      CatchUpStep(cfg, rows, RunReconcile(cfg, rows, o, init), last);
    }
  }

  /** With nothing missing every transaction has exactly one start entry and every closed one exactly one
      completed entry. */
  lemma NothingMissingMeansExactlyOne(rows: Rows, o: Outbox, kind: Kind)
    requires OutboxInv(o) && |Missing(kind, rows, o.entries)| == 0
    ensures forall id :: id in rows && (kind.CompletedKind? ==> !rows[id].Open()) ==>
              |set e | e in o.entries && o.entries[e].key == Key(kind, id)| == 1
  {
    forall id | id in rows && (kind.CompletedKind? ==> !rows[id].Open())
      ensures |set e | e in o.entries && o.entries[e].key == Key(kind, id)| == 1
    {
      assert id !in Missing(kind, rows, o.entries);
      var e :| e in o.entries && o.entries[e].key == Key(kind, id);
      var s := set x | x in o.entries && o.entries[x].key == Key(kind, id);
      assert forall x :: x in s ==> x == e;
      assert s == {e};
    }
  }

  /** The condition is needed: a transaction the manager refuses stays missing over every pass. */
  lemma {:induction false} RefusedStaysMissing(cfg: Config, kind: Kind, rows: Rows, o: Outbox,
                                               passes: seq<Reconciliation>, id: int)
    requires OutboxInv(o) && 0 <= o.lastID && ValidPasses(cfg, rows, o, passes)
    requires id in Missing(kind, rows, o.entries) && !Enqueueable(cfg, kind, rows[id])
    ensures OutboxInv(RunReconcile(cfg, rows, o, passes)) && 0 <= RunReconcile(cfg, rows, o, passes).lastID
    ensures id in Missing(kind, rows, RunReconcile(cfg, rows, o, passes).entries)
  {
    if passes != [] {
      var init, last := passes[..|passes| - 1], passes[|passes| - 1];
      assert forall i :: 0 <= i < |init| ==> init[..i] == passes[..i];
      RefusedStaysMissing(cfg, kind, rows, o, init, id);
      var before := RunReconcile(cfg, rows, o, init);
      var mid := EnqueueAll(cfg, StartKind, rows, before, last.starts, last.now);
      EnqueueAllKeys(cfg, StartKind, rows, before, last.starts, last.now);
      EnqueueAllKeys(cfg, CompletedKind, rows, mid, last.completed, last.now);
    }
  }

  /** A charger that starts a transaction at 5,000,000,000 Wh and stops it at 0 is refused its completed callback
      for ever, whatever is configured. */
  lemma RefusedForEver(cfg: Config, passes: seq<Reconciliation>)
    requires ValidPasses(cfg, BackwardsTable().rows, Outbox(0, map[]), passes)
    ensures TableInv(BackwardsTable(), 5) && 7 in BackwardsTable().rows && !BackwardsTable().rows[7].Open()
    ensures !CompletedOK(BackwardsTable().rows[7])
    ensures 7 in Missing(CompletedKind, BackwardsTable().rows,
              RunReconcile(cfg, BackwardsTable().rows, Outbox(0, map[]), passes).entries)
  {
    var request := Request("CP-1", 1, 5000000000.0, "USER-1", false);
    var created := Apply(Table(1, map[]), Create(request, "uuid", Always(7)), 0);
    assert Always(7)[0] == 7;
    ApplyKeepsInv(Table(1, map[]), Create(request, "uuid", Always(7)), 0, 0);
    assert created.rows == map[7 := NewRow(1, "uuid", request, 7, 0)];
    ApplyKeepsInv(created, Stop("CP-1", 7, 0.0), 0, 5);
    assert Known(created.rows, "CP-1", 7);
    RefusedStaysMissing(cfg, CompletedKind, BackwardsTable().rows, Outbox(0, map[]), passes, 7);
  }

  /** The table after that start and stop. */
  function BackwardsTable(): Table {
    var request := Request("CP-1", 1, 5000000000.0, "USER-1", false);
    var created := Apply(Table(1, map[]), Create(request, "uuid", Always(7)), 0);
    Apply(created, Stop("CP-1", 7, 0.0), 5)
  }
}
