/** The notification hub (internal/store/transaction_updates.go): per transaction a map of subscriptions,
    each a channel that holds at most one signal. Proved against the hub functions of Streams. */
module TransactionUpdates {
  import opened Wrappers
  import opened Streams

  /** A channel of capacity one without payload, and which subscription it was made for. */
  class Channel {
    ghost const id: int
    ghost const sub: int
    var full: bool

    constructor (ghost id: int, ghost sub: int)
      ensures !full && this.id == id && this.sub == sub
    {
      this.id, this.sub := id, sub;
      full := false;
    }
  }

  class TransactionUpdates {
    var nextID: int
    var subscribers: map<int, map<int, Channel>>
    ghost var view: Subs              // which channels hold a signal
    ghost var channels: set<Channel>  // every channel ever handed out

    predicate Has(id: int, sub: int)
      reads this
    {
      id in subscribers && sub in subscribers[id]
    }

    /** Subscription IDs are handed out in order and channels are not shared, ... */
    ghost predicate Owned(id: int, sub: int)
      reads this
      requires Has(id, sub)
    {
      var ch := subscribers[id][sub];
      sub <= nextID && ch in channels && ch.id == id && ch.sub == sub
    }

    /** ... no entry is empty, and the view is what the channels hold. */
    ghost predicate Valid()
      reads this, channels
    {
      && view.Keys == subscribers.Keys
      && (forall id :: id in subscribers ==> subscribers[id] != map[] && view[id].Keys == subscribers[id].Keys)
      && (forall id, sub :: Has(id, sub) ==> Owned(id, sub) && view[id][sub] == subscribers[id][sub].full)
    }

    constructor ()
      ensures Valid() && view == map[] && nextID == 0 && channels == {}
    {
      nextID, subscribers, view, channels := 0, map[], map[], {};
    }

    method Subscribe(id: int) returns (ch: Channel, subscriptionID: int)
      requires Valid()
      modifies this
      ensures Valid() && fresh(ch) && channels == old(channels) + {ch}
      ensures subscriptionID == nextID == old(nextID) + 1
      ensures view == Subscribed(old(view), id, subscriptionID)
      ensures Has(id, subscriptionID) && subscribers[id][subscriptionID] == ch
    {
      nextID := nextID + 1;
      subscriptionID := nextID;
      ch := new Channel(id, subscriptionID);
      Attach(id, subscriptionID, ch);
    }

    /** File a new channel beside the others. */
    method Attach(id: int, sub: int, ch: Channel)
      requires Valid() && ch.id == id && ch.sub == sub <= nextID && !ch.full
      modifies this`channels, this`subscribers, this`view
      ensures Valid() && channels == old(channels) + {ch}
      ensures view == Subscribed(old(view), id, sub)
      ensures Has(id, sub) && subscribers[id][sub] == ch
    {
      channels := channels + {ch};
      var inner: map<int, Channel> := if id in subscribers then subscribers[id] else map[];
      assert inner.Keys == SubsOf(view, id).Keys;
      inner := inner[sub := ch];
      subscribers := subscribers[id := inner];
      view := Subscribed(view, id, sub);
      assert sub in inner;
      forall i, a | Has(i, a) ensures Owned(i, a) && view[i][a] == subscribers[i][a].full {
        assert (i == id && a == sub) || old(Has(i, a) && Owned(i, a));
      }
    }

    /** The cancel function of a subscription; calling it again does nothing. */
    method Cancel(id: int, sub: int)
      requires Valid()
      modifies this`subscribers, this`view
      ensures Valid()
      ensures view == Cancelled(old(view), id, sub)
    {
      if id in subscribers {
        var rest := subscribers[id] - {sub};
        assert rest.Keys == (view[id] - {sub}).Keys;
        assert rest == map[] <==> rest.Keys == {};
        assert view[id] - {sub} == map[] <==> (view[id] - {sub}).Keys == {};
        subscribers := if rest == map[] then subscribers - {id} else subscribers[id := rest];
      }
      view := Cancelled(view, id, sub);
      forall i, a | Has(i, a) ensures Owned(i, a) && view[i][a] == subscribers[i][a].full {
        assert old(Has(i, a) && Owned(i, a));
      }
    }

    /** Every subscriber of the transaction is signalled, without blocking on a full channel. */
    method Publish(id: int)
      requires Valid()
      modifies this`view, channels
      ensures Valid()
      ensures view == Published(old(view), id)
    {
      if id !in subscribers {
        return;
      }
      var todo := subscribers[id].Keys;
      while todo != {}
        invariant todo <= subscribers[id].Keys
        invariant forall sub :: sub in subscribers[id] && sub !in todo ==> subscribers[id][sub].full
        invariant forall ch :: ch in channels && ch.id != id ==> ch.full == old(ch.full)
        invariant view == old(view)
      {
        SomeKey(todo);
        var sub: int :| sub in todo;
        todo := todo - {sub};
        var ch := subscribers[id][sub];
        assert Has(id, sub) && Owned(id, sub);
        if !ch.full {
          ch.full := true;
        }
      }
      view := Published(view, id);
      forall i, a | Has(i, a) ensures Owned(i, a) && view[i][a] == subscribers[i][a].full {
        assert old(Has(i, a) && Owned(i, a));
      }
    }
  }
}
