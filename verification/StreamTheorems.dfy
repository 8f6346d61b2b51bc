/** What a frontend stream has sent is the stored row at moments of the run, in order. */
module StreamTheorems {
  import opened Rows
  import opened Engine
  import opened EngineTheorems
  import H = Streams

  /** Everything a stream has read: what it has sent, and what it is about to send. */
  function SeenBy(st: H.Stream): seq<Transaction> {
    st.sent + if st.phase.Loaded? then [st.phase.row] else []
  }

  predicate Ascending(ps: seq<nat>, end: nat) {
    (forall i :: 0 <= i < |ps| ==> ps[i] <= end) && forall i, j :: 0 <= i <= j < |ps| ==> ps[i] <= ps[j]
  }

  /** The k-th row seen is the stored row after the first ps[k] events. */
  ghost predicate SeenAt(es: seq<Event>, id: int, seen: seq<Transaction>, ps: seq<nat>) {
    && |ps| == |seen| && Ascending(ps, |es|)
    && forall k :: 0 <= k < |seen| ==> StoredAt(es, ps[k], id, seen[k])
  }

  ghost predicate StoredAt(es: seq<Event>, p: nat, id: int, row: Transaction) {
    p <= |es| && id in At(es[..p]).table.rows && At(es[..p]).table.rows[id] == row
  }

  lemma StoredAtStays(es: seq<Event>, p: nat, id: int, row: Transaction)
    requires es != [] && StoredAt(es[..|es| - 1], p, id, row)
    ensures StoredAt(es, p, id, row)
  {
    assert es[..|es| - 1][..p] == es[..p];
  }

  lemma SeenAtStays(es: seq<Event>, id: int, seen: seq<Transaction>, ps: seq<nat>)
    requires es != [] && SeenAt(es[..|es| - 1], id, seen, ps)
    ensures SeenAt(es, id, seen, ps)
  {
    forall k | 0 <= k < |seen| ensures StoredAt(es, ps[k], id, seen[k]) { StoredAtStays(es, ps[k], id, seen[k]); }
  }

  /** A hub step lets a stream see nothing new, but for a read, which sees the stored row. */
  lemma HubStreamStep(rows: Rows, h: H.Hub, e: H.HubEvent, sub: int)
    requires H.HubInv(rows, h) && sub in H.HubNext(h, rows, e).streams
    ensures var after := H.HubNext(h, rows, e).streams[sub];
            if sub in h.streams then
              var before := h.streams[sub];
              && after.id == before.id
              && (SeenBy(after) == SeenBy(before) || (after.id in rows
                    && SeenBy(after) == SeenBy(before) + [rows[after.id]]))
            else SeenBy(after) == []
  {}

  /** Other steps leave every stream alone. */
  lemma NoStreamStep(s: Engine, e: Event, sub: int)
    requires Enabled(s, e) && !e.Stream? && sub in HubNext(s, e).streams
    ensures sub in s.hub.streams && HubNext(s, e).streams[sub] == s.hub.streams[sub]
  {}

  lemma StreamStep(s: Engine, e: Event, sub: int)
    requires H.HubInv(s.table.rows, s.hub) && sub in Step(s, e).hub.streams
    ensures var after := Step(s, e).hub.streams[sub];
            if sub in s.hub.streams then
              var before := s.hub.streams[sub];
              && after.id == before.id
              && (SeenBy(after) == SeenBy(before)
                  || (after.id in s.table.rows && Step(s, e).table == s.table
                      && SeenBy(after) == SeenBy(before) + [s.table.rows[after.id]]))
            else SeenBy(after) == []
  {
    if Enabled(s, e) {
      if e.Stream? { HubStreamStep(s.table.rows, s.hub, e.stream, sub); } else { NoStreamStep(s, e, sub); }
    }
  }

  /** The positions of what a stream has seen. */
  lemma {:induction false} StreamHistory(es: seq<Event>, sub: int) returns (ps: seq<nat>)
    requires sub in At(es).hub.streams
    ensures SeenAt(es, At(es).hub.streams[sub].id, SeenBy(At(es).hub.streams[sub]), ps)
  {
    var n := |es| - 1;
    if es == [] {
      ps := [];
    } else {
      var init := es[..n];
      Reachable(init);
      StreamStep(At(init), es[n], sub);
      var st := At(es).hub.streams[sub];
      if sub !in At(init).hub.streams {
        ps := [];
      } else {
        var before := At(init).hub.streams[sub];
        ps := StreamHistory(init, sub);
        SeenAtStays(es, st.id, SeenBy(before), ps);
        if SeenBy(st) != SeenBy(before) {
          assert es[..|es|] == es;
          assert StoredAt(es, |es|, st.id, At(init).table.rows[st.id]);
          ps := ps + [|es|];
        }
      }
    }
  }

  /** Snapshots in order: each is the stored row after some number of events of the run, and later snapshots
      come from no earlier moments. */
  lemma SnapshotsAreTheRowInOrder(es: seq<Event>, sub: int)
    requires sub in At(es).hub.streams
    ensures var st := At(es).hub.streams[sub];
            exists ps: seq<nat> :: SeenAt(es, st.id, st.sent, ps)
  {
    var st := At(es).hub.streams[sub];
    var ps := StreamHistory(es, sub);
    assert forall k :: 0 <= k < |st.sent| ==> SeenBy(st)[k] == st.sent[k];
    assert SeenAt(es, st.id, st.sent, ps[..|st.sent|]);
  }
}
