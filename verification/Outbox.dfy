/** The callback outbox: the row effects of internal/store/outbox_memory.go and what the hook manager
    (internal/hooks/manager.go) does with a claimed task. */
module Outbox {
  import Decimal

  datatype Kind = StartKind | CompletedKind

  /** The dedupe key "kind:transaction". */
  datatype Key = Key(kind: Kind, transactionID: int)

  datatype Status = Pending | Processing | Sent | Fatal

  datatype Entry = Entry(key: Key, status: Status, retries: nat, maxRetries: nat, nextRetryAt: int)
  {
    predicate Terminal() { status.Sent? || status.Fatal? }
    predicate Due(now: int) { status.Pending? && nextRetryAt <= now }
  }

  /** The text stored as dedupe key. */
  function KeyText(key: Key): string
    requires key.transactionID >= 0
  {
    (if key.kind.StartKind? then "start_transaction:" else "completed_transaction:") + Decimal.Itoa(key.transactionID)
  }

  /** Equal texts mean equal keys, so a key may stand for its text. */
  lemma KeyTextIdentifies(a: Key, b: Key)
    requires a.transactionID >= 0 && b.transactionID >= 0
    ensures KeyText(a) == KeyText(b) <==> a == b
  {
    if KeyText(a) == KeyText(b) {
      assert KeyText(a)[0] == if a.kind.StartKind? then 's' else 'c';
      assert KeyText(b)[0] == if b.kind.StartKind? then 's' else 'c';
      var n := if a.kind.StartKind? then |"start_transaction:"| else |"completed_transaction:"|;
      assert KeyText(a)[n..] == Decimal.Itoa(a.transactionID) && KeyText(b)[n..] == Decimal.Itoa(b.transactionID);
      Decimal.ItoaInjective(a.transactionID, b.transactionID);
    }
  }

  type Entries = map<int, Entry>

  datatype Outbox = Outbox(lastID: int, entries: Entries)

  function MaxRetries(kind: Kind): nat { if kind.StartKind? then 6 else 10 }

  function RetryBase(kind: Kind): nat { if kind.StartKind? then 30 else 60 }

  function Pow2(n: nat): nat { if n == 0 then 1 else 2 * Pow2(n - 1) }

  // ---------------------------------------------------------------- enqueue

  predicate HasKey(entries: Entries, key: Key) {
    exists id :: id in entries && entries[id].key == key
  }

  function Fresh(key: Key, now: int): Entry {
    Entry(key, Pending, 0, MaxRetries(key.kind), now)
  }

  function Enqueue(o: Outbox, key: Key, now: int): Outbox {
    if HasKey(o.entries, key) then o
    else Outbox(o.lastID + 1, o.entries[o.lastID + 1 := Fresh(key, now)])
  }

  /** IDs are handed out in order, no two entries share a key, and the retry budget is respected. */
  ghost predicate OutboxInv(o: Outbox) {
    && (forall id :: id in o.entries ==> 1 <= id <= o.lastID)
    && (forall id :: id in o.entries ==> EntryOK(o.entries[id]))
    && (forall i, j :: i in o.entries && j in o.entries && o.entries[i].key == o.entries[j].key ==> i == j)
  }

  predicate EntryOK(e: Entry) {
    e.maxRetries == MaxRetries(e.key.kind) && e.retries < e.maxRetries
  }

  /** Enqueueing is idempotent per key, never touches an existing entry, and the key is there after. */
  lemma EnqueueOnce(o: Outbox, key: Key, now: int)
    requires OutboxInv(o) && 0 <= o.lastID
    ensures var o' := Enqueue(o, key, now);
            && OutboxInv(o') && 0 <= o'.lastID
            && (forall id :: id in o.entries ==> id in o'.entries && o'.entries[id] == o.entries[id])
            && (forall k :: HasKey(o'.entries, k) <==> k == key || HasKey(o.entries, k))
            && (forall later :: Enqueue(o', key, later) == o')
  {
    var o' := Enqueue(o, key, now);
    forall k ensures HasKey(o'.entries, k) <==> k == key || HasKey(o.entries, k) {
      if HasKey(o.entries, k) {
        var id :| id in o.entries && o.entries[id].key == k;
        assert o'.entries[id].key == k;
      }
      if k == key && !HasKey(o.entries, key) {
        assert o'.entries[o.lastID + 1].key == key;
      }
    }
  }

  // ---------------------------------------------------------------- claim and settle

  /** What one ClaimDueCallbacks call may return: due entries, at most `limit`, and all of them if
      fewer than `limit` are due. */
  ghost predicate ValidClaim(entries: Entries, ids: set<int>, now: int, limit: nat) {
    && (forall id :: id in ids ==> id in entries && entries[id].Due(now))
    && |ids| <= limit
    && (|ids| < limit ==> forall id :: id in entries && entries[id].Due(now) ==> id in ids)
  }

  function Claim(entries: Entries, ids: set<int>): Entries {
    map id | id in entries ::
      if id in ids then entries[id].(status := Processing) else entries[id]
  }

  /** The copy of an entry handed to the worker. */
  datatype Task = Task(id: int, key: Key, retries: nat, maxRetries: nat)

  function TaskOf(id: int, e: Entry): Task { Task(id, e.key, e.retries, e.maxRetries) }

  /** How a post ended; a start callback that succeeds carries the limit. */
  datatype Outcome = Posted(maxKWh: real) | Retryable | Rejected

  function Backoff(kind: Kind, retries: nat): nat
    requires retries > 0
  {
    RetryBase(kind) * Pow2(retries - 1)
  }

  /** The entry after the worker has marked it, from the task it was handed. */
  function Settle(e: Entry, task: Task, outcome: Outcome, now: int): Entry {
    match outcome
    case Posted(_) => e.(status := Sent)
    case Rejected => e.(status := Fatal)
    case Retryable =>
      var retries := task.retries + 1;
      if retries >= task.maxRetries then e.(status := Fatal)
      else e.(status := Pending, retries := retries, nextRetryAt := now + Backoff(task.key.kind, retries))
  }

  // ---------------------------------------------------------------- the worker's batch

  predicate Distinct(ids: seq<int>) { forall i, j :: 0 <= i < j < |ids| ==> ids[i] != ids[j] }

  function SetOf(ids: seq<int>): set<int> { set i | 0 <= i < |ids| :: ids[i] }

  /** The copies handed out by a claim of these entries. */
  function TasksOf(entries: Entries, ids: seq<int>): seq<Task>
    requires forall i :: 0 <= i < |ids| ==> ids[i] in entries
  {
    seq(|ids|, i requires 0 <= i < |ids| => TaskOf(ids[i], entries[ids[i]]))
  }

  /** MarkCallbackSent, MarkCallbackRetry or MarkCallbackFatal with what the worker has in hand: whatever the
      entry has become meanwhile. */
  function Marked(entries: Entries, task: Task, outcome: Outcome, now: int): Entries {
    if task.id in entries then entries[task.id := Settle(entries[task.id], task, outcome, now)] else entries
  }

  /** The copies the worker holds are current, and their entries are being processed. */
  ghost predicate HeldOK(entries: Entries, held: seq<Task>) {
    && (forall i :: 0 <= i < |held| ==> Holds(entries, held[i]))
    && (forall i, j :: 0 <= i < j < |held| ==> held[i].id != held[j].id)
  }

  predicate Holds(entries: Entries, task: Task) {
    task.id in entries && entries[task.id].status.Processing? && task == TaskOf(task.id, entries[task.id])
  }

  lemma ClaimHolds(entries: Entries, ids: seq<int>, now: int)
    requires Distinct(ids) && ValidClaim(entries, SetOf(ids), now, 10)
    ensures forall i :: 0 <= i < |ids| ==> ids[i] in entries
    ensures HeldOK(Claim(entries, SetOf(ids)), TasksOf(entries, ids))
  {
    forall i | 0 <= i < |ids| ensures ids[i] in SetOf(ids) {}
  }

  /** A mark only touches its own entry, so the rest of the batch stays current. */
  lemma MarkHolds(entries: Entries, held: seq<Task>, outcome: Outcome, markOK: bool, now: int)
    requires HeldOK(entries, held) && held != []
    ensures HeldOK(if markOK then Marked(entries, held[0], outcome, now) else entries, held[1..])
  {}

  lemma ClaimKeepsOutboxInv(o: Outbox, ids: set<int>, now: int)
    requires OutboxInv(o) && 0 <= o.lastID
    ensures OutboxInv(o.(entries := Claim(o.entries, ids)))
    ensures forall a :: a in o.entries ==> Claim(o.entries, ids)[a].key == o.entries[a].key
  {}

  lemma MarkKeepsOutboxInv(o: Outbox, held: seq<Task>, outcome: Outcome, now: int)
    requires OutboxInv(o) && 0 <= o.lastID && HeldOK(o.entries, held) && held != []
    ensures OutboxInv(o.(entries := Marked(o.entries, held[0], outcome, now)))
    ensures forall a :: a in o.entries ==> Marked(o.entries, held[0], outcome, now)[a].key == o.entries[a].key
  {
    assert Holds(o.entries, held[0]);
  }

  // ---------------------------------------------------------------- one entry's life

  datatype Attempt = Attempt(outcome: Outcome, now: int)

  /** A fresh entry after a series of attempts; a terminal entry is not posted again. */
  function Life(key: Key, attempts: seq<Attempt>): Entry {
    if attempts == [] then Fresh(key, 0)
    else
      var e := Life(key, attempts[..|attempts| - 1]);
      var a := attempts[|attempts| - 1];
      if e.Terminal() then e else Settle(e, TaskOf(0, e), a.outcome, a.now)
  }

  /** How often it was really posted. */
  function Posts(key: Key, attempts: seq<Attempt>): nat {
    if attempts == [] then 0
    else Posts(key, attempts[..|attempts| - 1])
         + if Life(key, attempts[..|attempts| - 1]).Terminal() then 0 else 1
  }

  /** The backoff scheduled in total. */
  function Waited(key: Key, attempts: seq<Attempt>): nat {
    if attempts == [] then 0
    else
      var e := Life(key, attempts[..|attempts| - 1]);
      var e' := Life(key, attempts);
      Waited(key, attempts[..|attempts| - 1])
      + if e.Terminal() || e'.Terminal() then 0 else Backoff(key.kind, e.retries + 1)
  }

  lemma {:induction false} Pow2Monotone(a: nat, b: nat)
    requires a <= b
    ensures 1 <= Pow2(a) <= Pow2(b)
    decreases b
  {
    if a < b { Pow2Monotone(a, b - 1); } else if b > 0 { Pow2Monotone(b - 1, b - 1); }
  }

  predicate AllRetryable(attempts: seq<Attempt>) {
    forall i :: 0 <= i < |attempts| ==> attempts[i].outcome.Retryable?
  }

  /** One attempt on a pending entry settles it, or is a failure that is counted. */
  lemma SettleCounts(e: Entry, a: Attempt)
    requires EntryOK(e) && e.status.Pending?
    ensures var e' := Settle(e, TaskOf(0, e), a.outcome, a.now);
            && EntryOK(e') && e'.key == e.key
            && (if e'.Terminal() then e'.retries == e.retries
                else e'.status.Pending? && e'.retries == e.retries + 1 && a.outcome.Retryable?)
  {}

  /** While an entry is alive its retries count the posts, all of which failed. */
  lemma {:induction false} LifeSoFar(key: Key, attempts: seq<Attempt>)
    ensures var e := Life(key, attempts);
            && EntryOK(e) && e.key == key
            && (!e.Terminal() ==> e.retries == |attempts| && e.status.Pending? && AllRetryable(attempts))
            && Posts(key, attempts) == e.retries + if e.Terminal() then 1 else 0
  {
    if attempts != [] {
      var init, a := attempts[..|attempts| - 1], attempts[|attempts| - 1];
      LifeSoFar(key, init);
      if !Life(key, init).Terminal() { SettleCounts(Life(key, init), a); }
    }
  }

  /** The waits so far are base * (2^retries - 1). */
  lemma {:induction false} WaitedSoFar(key: Key, attempts: seq<Attempt>)
    ensures Waited(key, attempts) == TotalBackoff(key.kind, Life(key, attempts).retries)
  {
    if attempts != [] {
      var init := attempts[..|attempts| - 1];
      WaitedSoFar(key, init);
      LifeSoFar(key, init);
      var e := Life(key, init);
      assert Pow2(e.retries + 1) == 2 * Pow2(e.retries);
    }
  }

  function TotalBackoff(kind: Kind, retries: nat): int {
    if kind.StartKind? then 30 * (Pow2(retries) - 1) else 60 * (Pow2(retries) - 1)
  }

  /** An entry is posted at most MaxRetries times, waits at most base * (2^(MaxRetries-1) - 1) in all
      (930 s for a start, 30660 s for a completed callback), and is settled after MaxRetries attempts. */
  lemma LifeIsBounded(key: Key, attempts: seq<Attempt>)
    ensures Posts(key, attempts) <= MaxRetries(key.kind)
    ensures Waited(key, attempts) <= if key.kind.StartKind? then 930 else 30660
    ensures |attempts| >= MaxRetries(key.kind) ==> Life(key, attempts).Terminal()
  {
    LifeSoFar(key, attempts);
    WaitedSoFar(key, attempts);
    Pow2Monotone(Life(key, attempts).retries, MaxRetries(key.kind) - 1);
    assert Pow2(5) == 32;
    assert Pow2(9) == 512 by { assert Pow2(9) == 2 * Pow2(8); assert Pow2(7) == 4 * Pow2(5); }
  }

  /** The attempt that settles an entry: the first one the server answers for good, or the last one
      the budget allows. */
  function Deciding(attempts: seq<Attempt>): nat
    ensures Deciding(attempts) <= |attempts|
  {
    if attempts == [] then 0
    else if !attempts[0].outcome.Retryable? then 0
    else 1 + Deciding(attempts[1..])
  }

  lemma {:induction false} DecidingIsFirst(attempts: seq<Attempt>)
    ensures AllRetryable(attempts[..Deciding(attempts)])
    ensures Deciding(attempts) < |attempts| ==> !attempts[Deciding(attempts)].outcome.Retryable?
  {
    if attempts != [] && attempts[0].outcome.Retryable? {
      DecidingIsFirst(attempts[1..]);
      var d := Deciding(attempts[1..]);
      assert forall i :: 1 <= i < d + 1 ==> attempts[i] == attempts[1..][..d][i - 1];
    }
  }

  /** Terminal states stay. */
  lemma {:induction false} TerminalStays(key: Key, attempts: seq<Attempt>, k: nat)
    requires k <= |attempts| && Life(key, attempts[..k]).Terminal()
    ensures Life(key, attempts) == Life(key, attempts[..k])
  {
    if k < |attempts| {
      var init := attempts[..|attempts| - 1];
      assert init[..k] == attempts[..k];
      TerminalStays(key, init, k);
    } else {
      assert attempts[..k] == attempts;
    }
  }

  /** The attempt after `k` failed ones decides: with a real answer, or by exhausting the budget. */
  lemma DecidedAt(key: Key, attempts: seq<Attempt>, k: nat)
    requires k < |attempts| && k < MaxRetries(key.kind) && AllRetryable(attempts[..k])
    requires attempts[k].outcome.Retryable? ==> k == MaxRetries(key.kind) - 1
    ensures Life(key, attempts).Terminal()
    ensures Life(key, attempts).status.Sent? <==> attempts[k].outcome.Posted?
  {
    AliveWhileRetryable(key, attempts[..k]);
    LifeSoFar(key, attempts[..k]);
    assert attempts[..k + 1][..k] == attempts[..k];
    assert Life(key, attempts[..k + 1]).Terminal();
    TerminalStays(key, attempts, k + 1);
  }

  /** How an entry ends, exactly: sent iff a success comes within the budget before any rejection. */
  lemma SentIff(key: Key, attempts: seq<Attempt>)
    ensures var d := Deciding(attempts);
            Life(key, attempts).status.Sent?
            <==> d < |attempts| && d < MaxRetries(key.kind) && attempts[d].outcome.Posted?
  {
    var d := Deciding(attempts);
    var max := MaxRetries(key.kind);
    DecidingIsFirst(attempts);
    if d < max && d < |attempts| {
      DecidedAt(key, attempts, d);
    } else if d < max {
      assert attempts[..d] == attempts;
      AliveWhileRetryable(key, attempts);
    } else {
      assert forall i :: 0 <= i < max ==> attempts[i] == attempts[..d][i];
      DecidedAt(key, attempts, max - 1);
    }
  }

  lemma {:induction false} AliveWhileRetryable(key: Key, attempts: seq<Attempt>)
    requires AllRetryable(attempts) && |attempts| < MaxRetries(key.kind)
    ensures !Life(key, attempts).Terminal()
  {
    if attempts != [] {
      AliveWhileRetryable(key, attempts[..|attempts| - 1]);
      LifeSoFar(key, attempts[..|attempts| - 1]);
    }
  }

  // ---------------------------------------------------------------- draining the outbox

  /** The retries left, as one token per possible post. */
  function Tokens(entries: Entries): set<(int, int)> {
    set id, k | id in entries && !entries[id].Terminal() && entries[id].retries <= k < entries[id].maxRetries :: (id, k)
  }

  datatype Post = Post(id: int, outcome: Outcome, now: int)

  function SettleAll(entries: Entries, posts: seq<Post>): Entries {
    if posts == [] then entries
    else
      var mid := SettleAll(entries, posts[..|posts| - 1]);
      var p := posts[|posts| - 1];
      if p.id in mid then mid[p.id := Settle(mid[p.id], TaskOf(p.id, mid[p.id]), p.outcome, p.now)] else mid
  }

  /** A worker pass (processOnce): claim what is due, at most ten, and settle each claimed task once. */
  datatype Pass = Pass(now: int, posts: seq<Post>)

  function Ids(posts: seq<Post>): set<int> { set i | 0 <= i < |posts| :: posts[i].id }

  ghost predicate ValidPass(entries: Entries, p: Pass) {
    && ValidClaim(entries, Ids(p.posts), p.now, 10)
    && (forall i, j :: 0 <= i < j < |p.posts| ==> p.posts[i].id != p.posts[j].id)
  }

  function AfterPass(entries: Entries, p: Pass): Entries {
    SettleAll(Claim(entries, Ids(p.posts)), p.posts)
  }

  ghost predicate Quiet(entries: Entries) {
    forall id :: id in entries ==> EntryOK(entries[id]) && !entries[id].status.Processing?
  }

  /** One post spends at least the token of its attempt, and leaves every other entry alone. */
  lemma SettleSpendsToken(entries: Entries, p: Post)
    requires p.id in entries && !entries[p.id].Terminal() && EntryOK(entries[p.id])
    ensures var after := entries[p.id := Settle(entries[p.id], TaskOf(p.id, entries[p.id]), p.outcome, p.now)];
            && Tokens(after) < Tokens(entries)
            && EntryOK(after[p.id]) && !after[p.id].status.Processing? && after[p.id].key == entries[p.id].key
  {
    var after := entries[p.id := Settle(entries[p.id], TaskOf(p.id, entries[p.id]), p.outcome, p.now)];
    var spent := (p.id, entries[p.id].retries as int);
    assert spent in Tokens(entries) && spent !in Tokens(after);
  }

  /** What settling a list of distinct claimed tasks does to the claimed entries. */
  lemma {:induction false} PostsSoFar(claimed: Entries, posts: seq<Post>)
    requires forall id :: id in claimed ==> EntryOK(claimed[id])
    requires forall i :: 0 <= i < |posts| ==> posts[i].id in claimed && claimed[posts[i].id].status.Processing?
    requires forall i, j :: 0 <= i < j < |posts| ==> posts[i].id != posts[j].id
    ensures var mid := SettleAll(claimed, posts);
            && mid.Keys == claimed.Keys
            && (forall id :: id in mid ==> EntryOK(mid[id]) && mid[id].key == claimed[id].key)
            && (forall id :: id in mid && id !in Ids(posts) ==> mid[id] == claimed[id])
            && (forall id :: id in Ids(posts) ==> id in mid && !mid[id].status.Processing?)
    ensures Tokens(SettleAll(claimed, posts)) <= Tokens(claimed)
    ensures posts != [] ==> Tokens(SettleAll(claimed, posts)) < Tokens(claimed)
  {
    if posts != [] {
      var init, p := posts[..|posts| - 1], posts[|posts| - 1];
      PostsSoFar(claimed, init);
      assert p.id !in Ids(init);
      assert Ids(posts) == Ids(init) + {p.id};
      SettleSpendsToken(SettleAll(claimed, init), p);
    }
  }

  lemma ClaimKeepsTokens(entries: Entries, ids: set<int>, now: int)
    requires forall id :: id in ids ==> id in entries && entries[id].Due(now)
    ensures Tokens(Claim(entries, ids)) == Tokens(entries)
  {}

  /** A whole pass: no task is left half-processed, terminal entries are untouched, keys are kept, and
      the retry budget shrinks as soon as anything was claimed. */
  lemma PassSettles(entries: Entries, p: Pass)
    requires ValidPass(entries, p) && Quiet(entries)
    ensures Quiet(AfterPass(entries, p)) && AfterPass(entries, p).Keys == entries.Keys
    ensures forall id :: id in entries ==> AfterPass(entries, p)[id].key == entries[id].key
    ensures forall id :: id in entries && entries[id].Terminal() ==> AfterPass(entries, p)[id] == entries[id]
    ensures |Tokens(AfterPass(entries, p))| <= |Tokens(entries)|
    ensures p.posts != [] ==> |Tokens(AfterPass(entries, p))| < |Tokens(entries)|
  {
    forall i | 0 <= i < |p.posts| ensures p.posts[i].id in Ids(p.posts) {}
    ClaimKeepsTokens(entries, Ids(p.posts), p.now);
    PostsSoFar(Claim(entries, Ids(p.posts)), p.posts);
    SmallerSet(Tokens(AfterPass(entries, p)), Tokens(entries));
  }

  lemma SmallerSet<T>(a: set<T>, b: set<T>)
    requires a <= b
    ensures |a| <= |b| && (a != b ==> |a| < |b|)
  {
    assert b == a + (b - a);
  }

  lemma NoTokensLeft(entries: Entries)
    requires Quiet(entries)
    ensures Tokens(entries) == {} <==> forall id :: id in entries ==> entries[id].Terminal()
  {
    forall id | id in entries && !entries[id].Terminal() ensures Tokens(entries) != {} {
      assert (id, entries[id].retries as int) in Tokens(entries);
    }
  }

  function RunPasses(entries: Entries, passes: seq<Pass>): Entries {
    if passes == [] then entries
    else AfterPass(RunPasses(entries, passes[..|passes| - 1]), passes[|passes| - 1])
  }

  /** Each pass is a legal one that starts when every pending entry has become due. */
  ghost predicate DuePasses(entries: Entries, passes: seq<Pass>) {
    forall i :: 0 <= i < |passes| ==>
      var before := RunPasses(entries, passes[..i]);
      ValidPass(before, passes[i])
      && forall id :: id in before && before[id].status.Pending? ==> before[id].Due(passes[i].now)
  }

  /** Termination: with nothing new enqueued, as many due passes as there are retries left settle every
      entry, each as sent or fatal. */
  lemma {:induction false} OutboxDrains(entries: Entries, passes: seq<Pass>)
    requires Quiet(entries) && DuePasses(entries, passes)
    ensures Quiet(RunPasses(entries, passes)) && RunPasses(entries, passes).Keys == entries.Keys
    ensures |Tokens(RunPasses(entries, passes))| <= if |passes| <= |Tokens(entries)| then |Tokens(entries)| - |passes|
              else 0
    ensures |passes| >= |Tokens(entries)| ==>
              forall id :: id in entries ==> RunPasses(entries, passes)[id].Terminal()
  {
    if passes != [] {
      var init := passes[..|passes| - 1];
      assert forall i :: 0 <= i < |init| ==> init[..i] == passes[..i];
      OutboxDrains(entries, init);
      var before := RunPasses(entries, init);
      var last := passes[|passes| - 1];
      PassSettles(before, last);
      NoTokensLeft(before);
    }
    NoTokensLeft(RunPasses(entries, passes));
  }
}
