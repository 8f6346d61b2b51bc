/** Connection tracking (internal/ocpp16hal/connections.go) and the connect and disconnect handlers
    (internal/ocpp16hal/hal.go): a reconnect supersedes the old connection, whose late disconnect must not
    take the charger offline. */
module Connections {
  import opened Wrappers
  import G = Registry

  datatype Record = Record(chargerID: string, key: string, generation: nat, remoteAddr: string)

  type Active = map<string, Record>

  predicate IsCurrent(active: Active, c: string, key: string) { c in active && active[c].key == key }

  class ConnectionTracker {
    var next: nat
    var active: Active

    constructor ()
      ensures next == 0 && active == map[]
    {
      next, active := 0, map[];
    }

    method Register(c: string, key: string, addr: string) returns (record: Record, previous: Option<Record>)
      modifies this
      ensures next == old(next) + 1 && record == Record(c, key, next, addr)
      ensures active == old(active)[c := record]
      ensures previous == if c in old(active) then Some(old(active)[c]) else None
    {
      next := next + 1;
      record := Record(c, key, next, addr);
      previous := None;
      if c in active {
        previous := Some(active[c]);
      }
      active := active[c := record];
    }

    method UnregisterIfCurrent(c: string, key: string) returns (isCurrent: bool, current: Option<Record>)
      modifies this
      ensures next == old(next)
      ensures isCurrent <==> IsCurrent(old(active), c, key)
      ensures active == if isCurrent then old(active) - {c} else old(active)
      ensures current == if c in old(active) then Some(old(active)[c]) else None
    {
      if c !in active {
        return false, None;
      }
      current := Some(active[c]);
      if active[c].key != key {
        return false, current;
      }
      active := active - {c};
      isCurrent := true;
    }
  }

  // ---------------------------------------------------------------- runs

  /** A connection is known by the position of its Connect event, a handler by that of its first half. */
  datatype Event =
    | Connect(chargerID: string, key: string, addr: string)   // register, the handler's first half
    | Disconnect(connection: nat)                             // unregisterIfCurrent, likewise
    | Tell(handler: nat)                                      // the second half: Touch or MarkOffline
    | Message(chargerID: string)                              // any other message, which marks the charger online

  datatype Tracker = Tracker(next: nat, active: Active)

  /** Connections and handlers are named after they began, and a handler's second half comes once. */
  predicate WellFormed(es: seq<Event>) {
    && (forall j :: 0 <= j < |es| && es[j].Disconnect? ==> es[j].connection < j && es[es[j].connection].Connect?)
    && (forall j :: 0 <= j < |es| && es[j].Tell? ==>
          es[j].handler < j && (es[es[j].handler].Connect? || es[es[j].handler].Disconnect?))
    && (forall i, j :: 0 <= i < j < |es| && es[i].Tell? ==> es[i] != es[j])
  }

  /** No two connections of a charger share a key. */
  predicate DistinctKeys(es: seq<Event>) {
    forall i, j :: 0 <= i < j < |es| && es[i].Connect? && es[j].Connect? && es[i].chargerID == es[j].chargerID ==>
      es[i].key != es[j].key
  }

  function OnConnect(s: Tracker, c: string, key: string, addr: string): Tracker {
    s.(next := s.next + 1, active := s.active[c := Record(c, key, s.next + 1, addr)])
  }

  function OnDisconnect(s: Tracker, c: string, key: string): Tracker {
    if IsCurrent(s.active, c, key) then s.(active := s.active - {c}) else s
  }

  /** The tracker after a run. */
  function Run(es: seq<Event>): Tracker
    requires WellFormed(es)
  {
    if es == [] then Tracker(0, map[])
    else
      var e := es[|es| - 1];
      var s := Run(es[..|es| - 1]);
      match e
      case Connect(c, key, addr) => OnConnect(s, c, key, addr)
      case Disconnect(i) => OnDisconnect(s, es[i].chargerID, es[i].key)
      case _ => s
  }

  /** The charger of the handler that began at `k`. */
  function ChargerOf(es: seq<Event>, k: nat): string
    requires k < |es| && WellFormed(es) && (es[k].Connect? || es[k].Disconnect?)
  {
    if es[k].Connect? then es[k].chargerID else es[es[k].connection].chargerID
  }

  /** The handler that began at `k` changed the tracker; a stale disconnect returns there and then. */
  predicate Changes(es: seq<Event>, k: nat)
    requires k < |es| && WellFormed(es)
  {
    es[k].Connect?
    || (es[k].Disconnect? && IsCurrent(Run(es[..k]).active, es[es[k].connection].chargerID, es[es[k].connection].key))
  }

  /** The registry after a run. */
  function Chargers(es: seq<Event>): G.Chargers
    requires WellFormed(es)
  {
    if es == [] then map[]
    else
      var r := Chargers(es[..|es| - 1]);
      match es[|es| - 1]
      case Tell(k) =>
        if es[k].Connect? then G.Touched(r, ChargerOf(es, k))
        else if Changes(es, k) then G.Offline(r, ChargerOf(es, k)) else r
      case Message(c) => G.Touched(r, c)
      case _ => r
  }

  // ---------------------------------------------------------------- what it should track

  /** Connection `i` is the charger's latest ... */
  predicate Latest(es: seq<Event>, c: string, i: int) {
    && 0 <= i < |es| && es[i].Connect? && es[i].chargerID == c
    && forall j :: i < j < |es| && es[j].Connect? ==> es[j].chargerID != c
  }

  /** ... and has not disconnected. */
  predicate Alive(es: seq<Event>, c: string, i: int) {
    Latest(es, c, i) && forall j :: i < j < |es| ==> es[j] != Disconnect(i)
  }

  /** Generations are handed out in order, one per connect. */
  function Generation(es: seq<Event>): nat {
    if es == [] then 0 else Generation(es[..|es| - 1]) + if es[|es| - 1].Connect? then 1 else 0
  }

  predicate AliveAs(es: seq<Event>, c: string, i: int, r: Record) {
    Alive(es, c, i) && r == Record(c, es[i].key, Generation(es[..i + 1]), es[i].addr)
  }

  /** The tracker holds a charger's record exactly while its latest connection lives, and that record is
      that connection's, with the generation it was given. */
  ghost predicate TracksLatest(es: seq<Event>, c: string)
    requires WellFormed(es)
  {
    && Run(es).next == Generation(es)
    && (c in Run(es).active ==> exists i :: AliveAs(es, c, i, Run(es).active[c]))
    && (forall i :: Alive(es, c, i) ==> c in Run(es).active)
  }

  lemma AliveAfter(es: seq<Event>, e: Event, c: string, i: int)
    ensures 0 <= i < |es| ==>
              (Alive(es + [e], c, i) <==> Alive(es, c, i) && !(e.Connect? && e.chargerID == c) && e != Disconnect(i))
    ensures i == |es| ==> (Alive(es + [e], c, i) <==> e.Connect? && e.chargerID == c)
  {
    var more := es + [e];
    if 0 <= i < |es| && Alive(more, c, i) {
      assert more[|es|] == e;
      forall j | i < j < |es| ensures es[j] == more[j] {}
    }
  }

  lemma AliveIsUnique(es: seq<Event>, c: string, i: int, j: int)
    requires Alive(es, c, i) && Alive(es, c, j)
    ensures i == j
  {}

  lemma StepTracks(es: seq<Event>, e: Event, c: string)
    requires WellFormed(es + [e]) && DistinctKeys(es + [e]) && WellFormed(es) && TracksLatest(es, c)
    ensures TracksLatest(es + [e], c)
  {
    var more := es + [e];
    var n := |es|;
    assert more[..n] == es;
    assert more[..n + 1] == more;
    forall i ensures 0 <= i < n ==> (Alive(more, c, i) <==>
        Alive(es, c, i) && !(e.Connect? && e.chargerID == c)
        && e != Disconnect(i)) {
      AliveAfter(es, e, c, i);
    }
    AliveAfter(es, e, c, n);
    if e.Connect? && e.chargerID == c {
      assert AliveAs(more, c, n, Run(more).active[c]);
    } else if c in Run(es).active {
      var i :| AliveAs(es, c, i, Run(es).active[c]);
      assert more[..i + 1] == es[..i + 1];
      if e.Disconnect? && more[e.connection].chargerID == c && more[e.connection].key == es[i].key {
        assert more[i] == es[i];
        assert e.connection == i;
        forall k | Alive(more, c, k) ensures false { AliveIsUnique(es, c, i, k); }
      } else {
        assert AliveAs(more, c, i, Run(more).active[c]);
      }
    }
  }

  lemma {:induction false} AlwaysTracksLatest(es: seq<Event>, c: string)
    requires WellFormed(es) && DistinctKeys(es)
    ensures TracksLatest(es, c)
  {
    if es != [] {
      var init := es[..|es| - 1];
      assert es == init + [es[|es| - 1]];
      AlwaysTracksLatest(init, c);
      StepTracks(init, es[|es| - 1], c);
    }
  }

  /** Generations grow, so the tracked one is the largest its charger was ever given. */
  lemma {:induction false} GenerationsGrow(es: seq<Event>, i: nat, j: nat)
    requires i < j < |es| && es[j].Connect?
    ensures Generation(es[..i + 1]) < Generation(es[..j + 1])
    decreases j
  {
    assert es[..j + 1][..j] == es[..j];
    GenerationMonotone(es, i + 1, j);
  }

  lemma {:induction false} GenerationMonotone(es: seq<Event>, i: nat, j: nat)
    requires i <= j <= |es|
    ensures Generation(es[..i]) <= Generation(es[..j])
    decreases j
  {
    if i < j {
      assert es[..j][..j - 1] == es[..j - 1];
      GenerationMonotone(es, i, j - 1);
    }
  }

  lemma TrackedGenerationIsLargest(es: seq<Event>, c: string, j: nat)
    requires WellFormed(es) && DistinctKeys(es) && c in Run(es).active
    requires j < |es| && es[j].Connect? && es[j].chargerID == c
    ensures Generation(es[..j + 1]) <= Run(es).active[c].generation
  {
    AlwaysTracksLatest(es, c);
    var i :| AliveAs(es, c, i, Run(es).active[c]);
    if j < i { GenerationsGrow(es, j, i); }
  }

  lemma PrefixWellFormed(es: seq<Event>, k: nat)
    requires WellFormed(es) && k <= |es|
    ensures WellFormed(es[..k])
    ensures DistinctKeys(es) ==> DistinctKeys(es[..k])
  {}

  /** A disconnect changes the tracker exactly when it is that of the charger's latest connection, which has not
      disconnected before. */
  lemma DisconnectEffectiveIff(es: seq<Event>, k: nat)
    requires WellFormed(es) && DistinctKeys(es) && k < |es| && es[k].Disconnect?
    ensures WellFormed(es[..k]) && WellFormed(es[..k + 1])
    ensures var c := ChargerOf(es, k);
            var before, after := Run(es[..k]), Run(es[..k + 1]);
            && (Changes(es, k) <==> Alive(es[..k], c, es[k].connection))
            && after == (if Changes(es, k) then before.(active := before.active - {c}) else before)
            && (Changes(es, k) ==> c in before.active)
  {
    var c := ChargerOf(es, k);
    PrefixWellFormed(es, k);
    PrefixWellFormed(es, k + 1);
    assert es[..k + 1][..k] == es[..k];
    AlwaysTracksLatest(es[..k], c);
    CurrentIffAlive(es[..k], c, es[k].connection);
  }

  lemma SecondHalf(es: seq<Event>, k: nat)
    requires WellFormed(es) && es != [] && es[|es| - 1] == Tell(k) && es[k].Disconnect?
    ensures WellFormed(es[..|es| - 1])
    ensures var c, before := ChargerOf(es, k), Chargers(es[..|es| - 1]);
            Chargers(es) == if Changes(es, k) then G.Offline(before, c) else before
  {}

  /** Its second half, whenever it comes, marks the charger offline exactly in that case. */
  lemma SecondHalfEffectiveIff(es: seq<Event>, k: nat)
    requires WellFormed(es) && DistinctKeys(es) && es != [] && es[|es| - 1] == Tell(k) && es[k].Disconnect?
    ensures WellFormed(es[..|es| - 1])
    ensures var c, before := ChargerOf(es, k), Chargers(es[..|es| - 1]);
            Chargers(es) == if Alive(es[..k], c, es[k].connection) then G.Offline(before, c) else before
  {
    SecondHalf(es, k);
    DisconnectEffectiveIff(es, k);
  }

  lemma CurrentIffAlive(es: seq<Event>, c: string, connection: nat)
    requires WellFormed(es) && DistinctKeys(es) && TracksLatest(es, c)
    requires connection < |es| && es[connection].Connect? && es[connection].chargerID == c
    ensures IsCurrent(Run(es).active, c, es[connection].key) <==> Alive(es, c, connection)
  {
    if c in Run(es).active {
      var i :| AliveAs(es, c, i, Run(es).active[c]);
      if Alive(es, c, connection) { AliveIsUnique(es, c, i, connection); }
    }
  }

  /** What a further event may be. */
  predicate MayFollow(es: seq<Event>, e: Event) {
    match e
    case Disconnect(i) => i < |es| && es[i].Connect?
    case Tell(k) => k < |es| && (es[k].Connect? || es[k].Disconnect?) && e !in es
    case _ => true
  }

  lemma OneStep(es: seq<Event>, e: Event)
    requires WellFormed(es) && MayFollow(es, e)
    ensures WellFormed(es + [e])
    ensures e.Connect? ==> Run(es + [e]) == OnConnect(Run(es), e.chargerID, e.key, e.addr)
    ensures e.Disconnect? ==> Run(es + [e]) == OnDisconnect(Run(es), es[e.connection].chargerID, es[e.connection].key)
    ensures e.Tell? || e.Message? ==> Run(es + [e]) == Run(es)
  {
    var more := es + [e];
    assert more[..|es|] == es;
    if e.Disconnect? { assert more[e.connection] == es[e.connection]; }
  }

  /** The distinct keys are needed: with a reused key a stale disconnect takes the new connection down. */
  lemma ReusedKeyMisleads()
    ensures var es := [Connect("CP-1", "k", "a")] + [Connect("CP-1", "k", "b")];
            && Alive(es, "CP-1", 1) && !Alive(es, "CP-1", 0)
            && WellFormed(es) && WellFormed(es + [Disconnect(0)])
            && "CP-1" in Run(es).active && "CP-1" !in Run(es + [Disconnect(0)]).active
  {
    var es := [Connect("CP-1", "k", "a")];
    OneStep(es, Connect("CP-1", "k", "b"));
    OneStep(es + [Connect("CP-1", "k", "b")], Disconnect(0));
  }

  // ---------------------------------------------------------------- does online follow the tracker?

  predicate Online(r: G.Chargers, c: string) { c in r && r[c].online }

  /** The handler that began at `k` changed this charger's record. */
  predicate ChangesRecord(es: seq<Event>, k: int, c: string)
    requires WellFormed(es)
  {
    0 <= k < |es| && Changes(es, k) && ChargerOf(es, k) == c
  }

  /** The event writes this charger's online flag ... */
  predicate WritesFlag(es: seq<Event>, j: int, c: string)
    requires WellFormed(es)
  {
    0 <= j < |es| && (es[j] == Message(c) || (es[j].Tell? && ChangesRecord(es, es[j].handler, c)))
  }

  /** ... and sets it. */
  predicate SetsFlag(es: seq<Event>, j: int)
    requires WellFormed(es)
  {
    0 <= j < |es| && (es[j].Message? || (es[j].Tell? && es[es[j].handler].Connect?))
  }

  ghost predicate LastChange(es: seq<Event>, k: int, c: string)
    requires WellFormed(es)
  {
    ChangesRecord(es, k, c) && forall i :: k < i < |es| ==> !ChangesRecord(es, i, c)
  }

  ghost predicate LastWrite(es: seq<Event>, j: int, c: string)
    requires WellFormed(es)
  {
    WritesFlag(es, j, c) && forall i :: j < i < |es| ==> !WritesFlag(es, i, c)
  }

  lemma PrefixSame(es: seq<Event>, j: int, c: string)
    requires WellFormed(es) && 0 <= j < |es| - 1
    ensures WellFormed(es[..|es| - 1])
    ensures ChangesRecord(es[..|es| - 1], j, c) <==> ChangesRecord(es, j, c)
    ensures WritesFlag(es[..|es| - 1], j, c) <==> WritesFlag(es, j, c)
    ensures SetsFlag(es[..|es| - 1], j) <==> SetsFlag(es, j)
  {
    var init := es[..|es| - 1];
    assert init[..j] == es[..j];
    if es[j].Tell? { assert init[..es[j].handler] == es[..es[j].handler]; }
  }

  lemma {:induction false} TrackedIsTheLastChange(es: seq<Event>, k: int, c: string)
    requires WellFormed(es) && LastChange(es, k, c)
    ensures c in Run(es).active <==> es[k].Connect?
    decreases |es|
  {
    var n := |es| - 1;
    if k < n {
      PrefixSame(es, k, c);
      forall i | k < i < n ensures !ChangesRecord(es[..n], i, c) { PrefixSame(es, i, c); }
      TrackedIsTheLastChange(es[..n], k, c);
      assert !ChangesRecord(es, n, c);
    }
  }

  lemma {:induction false} OnlineIsTheLastWrite(es: seq<Event>, j: int, c: string)
    requires WellFormed(es) && LastWrite(es, j, c)
    ensures Online(Chargers(es), c) <==> SetsFlag(es, j)
    decreases |es|
  {
    var n := |es| - 1;
    if j < n {
      PrefixSame(es, j, c);
      forall i | j < i < n ensures !WritesFlag(es[..n], i, c) { PrefixSame(es, i, c); }
      OnlineIsTheLastWrite(es[..n], j, c);
      assert !WritesFlag(es, n, c);
    }
  }

  /** A charger is shown online exactly while it is tracked, provided the last write of its flag agrees with the
      last change of its record; in particular if that write is the second half of that change. */
  lemma OnlineFollowsTrackerIff(es: seq<Event>, k: int, j: int, c: string)
    requires WellFormed(es) && LastChange(es, k, c) && LastWrite(es, j, c)
    ensures (Online(Chargers(es), c) <==> c in Run(es).active) <==> (SetsFlag(es, j) <==> es[k].Connect?)
    ensures es[j] == Tell(k) ==> (Online(Chargers(es), c) <==> c in Run(es).active)
  {
    TrackedIsTheLastChange(es, k, c);
    OnlineIsTheLastWrite(es, j, c);
  }

  /** What the second half of a handler writes. */
  lemma OneTell(es: seq<Event>, k: nat)
    requires WellFormed(es) && MayFollow(es, Tell(k))
    ensures WellFormed(es + [Tell(k)])
    ensures Chargers(es + [Tell(k)])
         == if es[k].Connect? then G.Touched(Chargers(es), ChargerOf(es, k))
            else if Changes(es, k) then G.Offline(Chargers(es), ChargerOf(es, k)) else Chargers(es)
  {
    var more := es + [Tell(k)];
    OneStep(es, Tell(k));
    assert more[..|es|] == es && more[..k] == es[..k] && more[k] == es[k];
  }

  /** The connection `i` is dropped, and the charger connects anew. */
  function Reconnected(es: seq<Event>, i: nat, c: string, key: string): seq<Event> {
    es + [Disconnect(i)] + [Connect(c, key, "addr")]
  }

  lemma ReconnectedIsTracked(es: seq<Event>, i: nat, c: string, key: string)
    requires WellFormed(es) && i < |es| && es[i].Connect? && es[i].chargerID == c
    requires IsCurrent(Run(es).active, c, es[i].key)
    ensures var all := Reconnected(es, i, c, key);
            WellFormed(all) && Alive(all, c, |es| + 1) && c in Run(all).active && Changes(all, |es|)
  {
    var a := es + [Disconnect(i)];
    var all := Reconnected(es, i, c, key);
    OneStep(es, Disconnect(i));
    OneStep(a, Connect(c, key, "addr"));
    assert all[..|es|] == es && all[|es|] == Disconnect(i) && all[i] == es[i];
  }

  /** No second half comes before its first. */
  lemma NotYetTold(es: seq<Event>, k: nat)
    requires WellFormed(es) && k >= |es|
    ensures Tell(k) !in es
  {}

  /** A connect between the halves of a disconnect, in whatever state: the second halves come in the other order,
      and the charger is connected and shown offline. */
  lemma ConnectBetweenHalves(es: seq<Event>, i: nat, c: string, key: string)
    requires WellFormed(es) && i < |es| && es[i].Connect? && es[i].chargerID == c
    requires IsCurrent(Run(es).active, c, es[i].key)
    ensures var all := Reconnected(es, i, c, key) + [Tell(|es| + 1)] + [Tell(|es|)];
            WellFormed(all) && Alive(all, c, |es| + 1) && c in Run(all).active && !Online(Chargers(all), c)
  {
    var b := Reconnected(es, i, c, key);
    ReconnectedIsTracked(es, i, c, key);
    NotYetTold(es, |es|);
    NotYetTold(es, |es| + 1);
    var d := b + [Tell(|es| + 1)];
    OneStep(b, Tell(|es| + 1));
    OneStep(d, Tell(|es|));
    assert d[..|es|] == b[..|es|];
    OneTell(d, |es|);
  }
}
