/** Frontend transaction streams (internal/httpapi/frontend_transaction_ws.go) over the notification hub
    (internal/store/transaction_updates.go): every store write is followed, some time later, by a publish;
    a stream re-reads the row when its capacity-1 channel holds a signal. */
module Streams {
  import opened Wrappers
  import opened Rows

  // ---------------------------------------------------------------- the hub, on values

  /** Per transaction, per subscription: does its channel hold a signal? */
  type Subs = map<int, map<int, bool>>

  function SubsOf(v: Subs, id: int): map<int, bool> { if id in v then v[id] else map[] }

  predicate Signalled(v: Subs, id: int, sub: int) { sub in SubsOf(v, id) && SubsOf(v, id)[sub] }

  function Subscribed(v: Subs, id: int, sub: int): Subs { v[id := SubsOf(v, id)[sub := false]] }

  function Published(v: Subs, id: int): Subs {
    if id in v then v[id := map s | s in v[id] :: true] else v
  }

  function Received(v: Subs, id: int, sub: int): Subs {
    if sub in SubsOf(v, id) then v[id := v[id][sub := false]] else v
  }

  /** Cancelling the last subscription of a transaction drops the transaction. */
  function Cancelled(v: Subs, id: int, sub: int): Subs {
    var rest := SubsOf(v, id) - {sub};
    if rest == map[] then v - {id} else v[id := rest]
  }

  /** The publish a wrapped store operation owes after it has written: one for every success. */
  function Publication(rows: Rows, op: Op): Option<int> {
    match op
    case Create(_, _, draws) => FirstFree(rows, draws)
    case LiveMeter(charger, id, _) => if Known(rows, charger, id) then Some(id) else None
    case Stop(charger, id, _) => if Known(rows, charger, id) then Some(id) else None
    case ForceClose(charger, id, _) => if Known(rows, charger, id) then Some(id) else None
    case SetMaxKWh(id, _) => Some(id)
    case CheckLimit(charger, id) => if Known(rows, charger, id) && Claimable(rows[id]) then Some(id) else None
    case Release(_, id) => Some(id)
  }

  /** Every operation that changes a row owes a publish for that row, and no other row changes. */
  lemma ChangeOwesPublication(t: Table, op: Op, now: int, id: int)
    requires id in t.rows
    ensures id in Apply(t, op, now).rows
    ensures Apply(t, op, now).rows[id] != t.rows[id] ==> Publication(t.rows, op) == Some(id)
  {
    if op.Create? { FirstFreeIsFree(t.rows, op.draws); }
  }

  // ---------------------------------------------------------------- streams

  datatype Phase = MustRead | Loaded(row: Transaction) | Idle

  /** One websocket handler after Subscribe; `sent` is everything it has written to its client. */
  datatype Stream = Stream(id: int, idTag: string, phase: Phase, sent: seq<Transaction>)

  datatype Hub = Hub(unpublished: multiset<int>, subs: Subs, lastSub: int, streams: map<int, Stream>)

  datatype HubEvent =
    | Publish(id: int)
    | Subscribe(id: int, idTag: string)
    | Receive(sub: int)
    | Resync(sub: int)
    | Read(sub: int)
    | Send(sub: int)
    | Disconnect(sub: int)

  function OwePublication(h: Hub, rows: Rows, op: Op): Hub {
    match Publication(rows, op)
    case None => h
    case Some(id) => h.(unpublished := h.unpublished + multiset{id})
  }

  function WithPhase(h: Hub, sub: int, phase: Phase): Hub
    requires sub in h.streams
  {
    h.(streams := h.streams[sub := h.streams[sub].(phase := phase)])
  }

  /** One step of the hub or of a stream; a step that is not enabled changes nothing. */
  function HubNext(h: Hub, rows: Rows, e: HubEvent): Hub {
    match e
    case Publish(id) =>
      if id in h.unpublished then h.(unpublished := h.unpublished - multiset{id}, subs := Published(h.subs, id)) else h
    case Subscribe(id, idTag) =>
      if id in rows && rows[id].idTag == idTag then
        h.(lastSub := h.lastSub + 1, subs := Subscribed(h.subs, id, h.lastSub + 1),
           streams := h.streams[h.lastSub + 1 := Stream(id, idTag, MustRead, [])])
      else h
    case Receive(sub) =>
      if sub in h.streams && h.streams[sub].phase.Idle? && Signalled(h.subs, h.streams[sub].id, sub) then
        WithPhase(h.(subs := Received(h.subs, h.streams[sub].id, sub)), sub, MustRead)
      else h
    case Resync(sub) =>
      if sub in h.streams && h.streams[sub].phase.Idle? then WithPhase(h, sub, MustRead) else h
    case Read(sub) =>
      if sub in h.streams && h.streams[sub].phase.MustRead? && h.streams[sub].id in rows then
        WithPhase(h, sub, Loaded(rows[h.streams[sub].id]))
      else h
    case Send(sub) =>
      if sub in h.streams && h.streams[sub].phase.Loaded? then
        var st := h.streams[sub];
        h.(streams := h.streams[sub := st.(phase := Idle, sent := st.sent + [st.phase.row])])
      else h
    case Disconnect(sub) =>
      if sub in h.streams then
        h.(streams := h.streams - {sub}, subs := Cancelled(h.subs, h.streams[sub].id, sub))
      else h
  }

  /** A restart of the central system: its streams are gone, and so is whatever was owed to them. */
  function Restarted(h: Hub): Hub { Hub(multiset{}, map[], h.lastSub, map[]) }

  // ---------------------------------------------------------------- the invariant

  /** What the client saw last is the row, or something is still on its way that will show it. */
  predicate UpToDate(row: Transaction, h: Hub, sub: int)
    requires sub in h.streams
  {
    var st := h.streams[sub];
    || st.phase.MustRead?
    || st.id in h.unpublished
    || Signalled(h.subs, st.id, sub)
    || st.phase == Loaded(row)
    || (st.phase.Idle? && st.sent != [] && st.sent[|st.sent| - 1] == row)
  }

  /** Everything sent is a version of the row, in order. */
  ghost predicate InOrder(row: Transaction, st: Stream) {
    && (forall i, j :: 0 <= i < j < |st.sent| ==> Evolves(st.sent[i], st.sent[j]))
    && (forall i :: 0 <= i < |st.sent| ==> Evolves(st.sent[i], row))
    && (st.phase.Loaded? ==>
          Evolves(st.phase.row, row) && forall i :: 0 <= i < |st.sent| ==> Evolves(st.sent[i], st.phase.row))
  }

  ghost predicate StreamOK(rows: Rows, h: Hub, sub: int)
    requires sub in h.streams
  {
    var st := h.streams[sub];
    && sub <= h.lastSub
    && sub in SubsOf(h.subs, st.id)
    && st.id in rows && rows[st.id].idTag == st.idTag
    && UpToDate(rows[st.id], h, sub)
    && InOrder(rows[st.id], st)
  }

  ghost predicate HubInv(rows: Rows, h: Hub) {
    && (forall sub :: sub in h.streams ==> StreamOK(rows, h, sub))
    && SubsInv(h)
  }

  /** The hub knows exactly the live streams, and keeps no empty entry. */
  ghost predicate SubsInv(h: Hub) {
    && (forall id :: id in h.subs ==> h.subs[id] != map[])
    && (forall id, sub :: sub in SubsOf(h.subs, id) ==> sub in h.streams && h.streams[sub].id == id)
  }

  /** A store write with its publish still owed. */
  lemma WriteKeepsHubInv(t: Table, h: Hub, op: Op, before: int, now: int)
    requires TableInv(t, before) && before <= now && HubInv(t.rows, h)
    ensures HubInv(Apply(t, op, now).rows, OwePublication(h, t.rows, op))
  {
    ApplyKeepsInv(t, op, before, now);
    var rows', h' := Apply(t, op, now).rows, OwePublication(h, t.rows, op);
    forall sub | sub in h'.streams ensures StreamOK(rows', h', sub) {
      assert StreamOK(t.rows, h, sub);
      ChangeOwesPublication(t, op, now, h.streams[sub].id);
    }
  }

  lemma SubscribeKeepsSubs(rows: Rows, h: Hub, id: int, idTag: string)
    requires HubInv(rows, h)
    ensures SubsInv(HubNext(h, rows, Subscribe(id, idTag)))
  {
    var h' := HubNext(h, rows, Subscribe(id, idTag));
    assert h' != h ==> h.lastSub + 1 in h'.subs[id];
    forall x, sub | sub in SubsOf(h'.subs, x) ensures sub in h'.streams && h'.streams[sub].id == x {
      assert sub in SubsOf(h.subs, x) || (x == id && sub == h.lastSub + 1);
      if sub in SubsOf(h.subs, x) { assert StreamOK(rows, h, sub); }
    }
  }

  lemma DisconnectKeepsSubs(rows: Rows, h: Hub, gone: int)
    requires HubInv(rows, h)
    ensures SubsInv(HubNext(h, rows, Disconnect(gone)))
  {
    var h' := HubNext(h, rows, Disconnect(gone));
    forall x, sub | sub in SubsOf(h'.subs, x) ensures sub in h'.streams && h'.streams[sub].id == x {
      assert sub in SubsOf(h.subs, x);
    }
  }

  /** Same subscribers, same streams, whatever the signals and the phases. */
  lemma SameMembersKeepSubs(h: Hub, h': Hub)
    requires SubsInv(h) && h'.streams.Keys == h.streams.Keys && h'.subs.Keys == h.subs.Keys
    requires forall sub :: sub in h.streams ==> h'.streams[sub].id == h.streams[sub].id
    requires forall id :: id in h.subs ==> h'.subs[id].Keys == h.subs[id].Keys
    ensures SubsInv(h')
  {
    forall id | id in h'.subs ensures h'.subs[id] != map[] {
      assert h.subs[id] != map[];
      SomeKey(h.subs[id].Keys);
      var k :| k in h.subs[id].Keys;
      assert k in h'.subs[id].Keys;
    }
    forall x, sub | sub in SubsOf(h'.subs, x) ensures sub in h'.streams && h'.streams[sub].id == x {
      assert sub in SubsOf(h.subs, x);
    }
  }

  lemma SignalKeepsSubs(rows: Rows, h: Hub, e: HubEvent)
    requires SubsInv(h) && (e.Publish? || e.Receive?)
    ensures SubsInv(HubNext(h, rows, e))
  {
    SameMembersKeepSubs(h, HubNext(h, rows, e));
  }

  lemma PhaseKeepsSubs(rows: Rows, h: Hub, e: HubEvent)
    requires SubsInv(h) && (e.Resync? || e.Read? || e.Send?)
    ensures SubsInv(HubNext(h, rows, e))
  {}

  lemma HubStepKeepsSubs(rows: Rows, h: Hub, e: HubEvent)
    requires HubInv(rows, h)
    ensures SubsInv(HubNext(h, rows, e))
  {
    match e
    case Subscribe(id, idTag) => SubscribeKeepsSubs(rows, h, id, idTag);
    case Disconnect(gone) => DisconnectKeepsSubs(rows, h, gone);
    case Publish(_) => SignalKeepsSubs(rows, h, e);
    case Receive(_) => SignalKeepsSubs(rows, h, e);
    case Resync(_) => PhaseKeepsSubs(rows, h, e);
    case Read(_) => PhaseKeepsSubs(rows, h, e);
    case Send(_) => PhaseKeepsSubs(rows, h, e);
  }

  lemma HubStepKeepsInv(rows: Rows, h: Hub, e: HubEvent)
    requires HubInv(rows, h)
    ensures HubInv(rows, HubNext(h, rows, e))
  {
    HubStepKeepsSubs(rows, h, e);
    var h' := HubNext(h, rows, e);
    forall sub | sub in h'.streams ensures StreamOK(rows, h', sub) {
      if sub in h.streams {
        assert StreamOK(rows, h, sub);
        StreamStep(rows, h, e, sub);
      }
    }
  }

  lemma StreamStep(rows: Rows, h: Hub, e: HubEvent, sub: int)
    requires HubInv(rows, h) && sub in h.streams && StreamOK(rows, h, sub)
    requires sub in HubNext(h, rows, e).streams
    ensures StreamOK(rows, HubNext(h, rows, e), sub)
  {
    match e
    case Publish(id) => case Subscribe(id, idTag) => case Receive(s) => case Resync(s) =>
    case Read(s) => case Send(s) => case Disconnect(s) =>
  }

  // ---------------------------------------------------------------- what the invariant gives

  /** Nothing is pending anywhere. */
  ghost predicate AtRest(h: Hub) {
    && h.unpublished == multiset{}
    && (forall id, sub :: !Signalled(h.subs, id, sub))
    && (forall sub :: sub in h.streams ==> h.streams[sub].phase.Idle?)
  }

  /** No lost update: at rest every stream's last snapshot is the stored row. */
  lemma AtRestEveryStreamShowsTheRow(rows: Rows, h: Hub, sub: int)
    requires HubInv(rows, h) && AtRest(h) && sub in h.streams
    ensures var st := h.streams[sub];
            st.sent != [] && st.id in rows && st.sent[|st.sent| - 1] == rows[st.id]
  {
    assert StreamOK(rows, h, sub);
  }

  datatype Status = RUNNING | COMPLETED

  function StatusOf(tx: Transaction): Status { if tx.stopTime.Some? then COMPLETED else RUNNING }

  /** A stream never goes from COMPLETED back to RUNNING. */
  lemma NeverBackToRunning(rows: Rows, h: Hub, sub: int, i: nat, j: nat)
    requires HubInv(rows, h) && sub in h.streams && i <= j < |h.streams[sub].sent|
    ensures StatusOf(h.streams[sub].sent[i]).COMPLETED? ==> StatusOf(h.streams[sub].sent[j]).COMPLETED?
  {
    assert StreamOK(rows, h, sub);
  }
}
