/** StartTransaction handling (internal/ocpp16hal/hal.go, OnStartTransaction): list the charger's open
    transactions, decide, and perhaps create one. The listing and the creation are separate store calls,
    so workers, recovery and other chargers run in between; only the same charger cannot, because a
    charger has one outstanding CALL (section 4.1.1 of the OCPP-J 1.6 specification). */
module Starts {
  import opened Rows

  datatype Decision = Retry(tx: Transaction) | Overlap(tx: Transaction) | Fresh

  predicate SameStart(tx: Transaction, idTag: string, meterStart: real) {
    tx.idTag == idTag && tx.meterStart == meterStart
  }

  /** The handler's loop over the list: the first open transaction on the connector decides. */
  function Decide(open: seq<Transaction>, connector: int, idTag: string, meterStart: real): Decision {
    if open == [] then Fresh
    else if open[0].connectorID != connector then Decide(open[1..], connector, idTag, meterStart)
    else if SameStart(open[0], idTag, meterStart) then Retry(open[0])
    else Overlap(open[0])
  }

  /** A listing of the charger's open rows, in any order. */
  ghost predicate Lists(open: seq<Transaction>, rows: Rows, charger: string) {
    && (forall i :: 0 <= i < |open| ==> open[i].transactionID in OpenOf(rows, charger)
                                        && rows[open[i].transactionID] == open[i])
    && (forall i, j :: 0 <= i < j < |open| ==> open[i].transactionID != open[j].transactionID)
    && (forall id :: id in OpenOf(rows, charger) ==> InList(open, id))
  }

  ghost predicate InList(open: seq<Transaction>, id: int) {
    exists i :: 0 <= i < |open| && open[i].transactionID == id
  }

  ghost predicate Busy(rows: Rows, charger: string, connector: int, id: int) {
    id in rows && rows[id].Open() && rows[id].On(charger, connector)
  }

  /** Each connector has at most one open transaction. */
  ghost predicate OneOpen(rows: Rows) {
    forall i, j :: (i in rows && j in rows && rows[i].Open() && rows[j].Open()
                    && rows[j].On(rows[i].chargerID, rows[i].connectorID)) ==> i == j
  }

  lemma {:induction false} DecidePicks(open: seq<Transaction>, connector: int, idTag: string, meterStart: real)
    ensures match Decide(open, connector, idTag, meterStart)
            case Fresh => forall i :: 0 <= i < |open| ==> open[i].connectorID != connector
            case Retry(tx) => tx in open && tx.connectorID == connector && SameStart(tx, idTag, meterStart)
            case Overlap(tx) => tx in open && tx.connectorID == connector && !SameStart(tx, idTag, meterStart)
  {
    if open != [] { DecidePicks(open[1..], connector, idTag, meterStart); }
  }

  /** With at most one open transaction per connector the decision is determined by the rows, whatever
      order the store lists them in: retry or refuse on a busy connector, create on a free one. */
  lemma DecisionIndependentOfOrder(open: seq<Transaction>, rows: Rows, charger: string, connector: int, idTag: string,
                                   meterStart: real, id: int)
    requires Lists(open, rows, charger) && OneOpen(rows)
    requires forall x :: x in rows ==> rows[x].transactionID == x
    ensures Busy(rows, charger, connector, id) ==>
              Decide(open, connector, idTag, meterStart)
              == if SameStart(rows[id], idTag, meterStart) then Retry(rows[id]) else Overlap(rows[id])
    ensures Decide(open, connector, idTag, meterStart).Fresh? <==> forall x :: !Busy(rows, charger, connector, x)
  {
    DecidePicks(open, connector, idTag, meterStart);
    var d := Decide(open, connector, idTag, meterStart);
    if d.Fresh? {
      forall x | x in OpenOf(rows, charger) ensures rows[x].connectorID != connector {
        assert InList(open, x);
      }
    } else {
      assert Busy(rows, charger, connector, d.tx.transactionID);
    }
  }

  // ---------------------------------------------------------------- outstanding calls

  /** A StartTransaction call between its listing and its decision. */
  datatype Call = Call(connectorID: int, idTag: string, meterStart: real, open: seq<Transaction>)

  /** Every transaction of the charger that is open now was in the listing, and every listed one is an
      earlier version of a row. */
  ghost predicate CallOK(rows: Rows, charger: string, call: Call) {
    && (forall id :: id in OpenOf(rows, charger) ==> InList(call.open, id))
    && (forall i :: 0 <= i < |call.open| ==>
          && call.open[i].transactionID in rows && call.open[i].chargerID == charger && call.open[i].Open()
          && Evolves(call.open[i], rows[call.open[i].transactionID]))
  }

  ghost predicate StartInv(rows: Rows, calls: map<string, Call>) {
    OneOpen(rows) && forall c :: c in calls ==> CallOK(rows, c, calls[c])
  }

  /** The creation a finished call asks for. */
  function RequestOf(charger: string, call: Call, single: bool): Request {
    Request(charger, call.connectorID, call.meterStart, call.idTag, single)
  }

  function DecisionOf(call: Call): Decision {
    Decide(call.open, call.connectorID, call.idTag, call.meterStart)
  }

  lemma ListingKeepsInv(rows: Rows, calls: map<string, Call>, charger: string, call: Call)
    requires StartInv(rows, calls) && Lists(call.open, rows, charger)
    ensures StartInv(rows, calls[charger := call])
  {}

  /** Any store operation but a create: open transactions only disappear. */
  lemma OtherOpKeepsStartInv(t: Table, calls: map<string, Call>, op: Op, before: int, now: int)
    requires TableInv(t, before) && before <= now && StartInv(t.rows, calls) && !op.Create?
    ensures StartInv(Apply(t, op, now).rows, calls)
  {
    ApplyKeepsInv(t, op, before, now);
    var rows' := Apply(t, op, now).rows;
    forall c | c in calls ensures CallOK(rows', c, calls[c]) {
      forall id | id in OpenOf(rows', c) ensures InList(calls[c].open, id) {
        assert id in OpenOf(t.rows, c);
      }
    }
  }

  /** The create of a call that found its connector free, however stale its listing is. */
  lemma CreateKeepsStartInv(t: Table, calls: map<string, Call>, charger: string, single: bool, uuid: string,
                            draws: Draws, before: int, now: int)
    requires TableInv(t, before) && before <= now && StartInv(t.rows, calls)
    requires charger in calls && DecisionOf(calls[charger]).Fresh?
    ensures StartInv(Apply(t, Create(RequestOf(charger, calls[charger], single), uuid, draws), now).rows,
              calls - {charger})
  {
    var call := calls[charger];
    var op := Create(RequestOf(charger, call, single), uuid, draws);
    ApplyKeepsInv(t, op, before, now);
    FirstFreeIsFree(t.rows, draws);
    var rows' := Apply(t, op, now).rows;
    DecidePicks(call.open, call.connectorID, call.idTag, call.meterStart);
    forall id | id in OpenOf(t.rows, charger) ensures t.rows[id].connectorID != call.connectorID {
      assert InList(call.open, id);
    }
    forall c | c in calls && c != charger ensures CallOK(rows', c, calls[c]) {
      forall id | id in OpenOf(rows', c) ensures InList(calls[c].open, id) {
        assert id in OpenOf(t.rows, c);
      }
    }
  }
}
